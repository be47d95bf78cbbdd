/** `PaymentsController`: the HTTP layer in front of `PaymentsService`. It
    adds a role guard on `create` and a month-format check on
    `getRenewals`, and otherwise hands its arguments on unchanged. */
module PaymentsController {
  import opened Common
  import opened Patterns
  import opened Payments
  import CreatePaymentDto

  /** What the roles guard answers when the caller's role is not listed. */
  const RoleGuardDenied: Error := Forbidden("Forbidden resource")

  /** The month check throws ForbiddenException, so a malformed month is a
      403 here, where the front-end handler answers 400. */
  const MalformedMonth: Error := Forbidden("Некорректный формат месяца (YYYY-MM)")

  /** `create` under `@Roles(ADMIN, SALES_MANAGER)`: the guard refuses every
      other role before the service runs, so the service's own role check
      can never be the one that refuses. A caller the guard lets through
      gets the service's answer: NotFound for an absent client, otherwise
      one payment appended. */
  method Create(service: PaymentsService, clientId: ClientId, dto: CreatePaymentDto.CreatePayment,
                userId: UserId, role: Role, now: int) returns (r: Result<Payment>)
    requires service.Valid()
    modifies service
    ensures service.Valid()
    ensures !MayCreate(role) ==> r == Err(RoleGuardDenied) && service.payments == old(service.payments)
    ensures r != Err(CreateForbidden)
    ensures r.Ok? <==> MayCreate(role) && clientId < |service.store.clients|
    ensures MayCreate(role) && clientId >= |service.store.clients| ==>
      r == Err(PaymentClientNotFound) && service.payments == old(service.payments)
    ensures r.Ok? ==>
      && r.value == Payment(dto.amount, dto.month, dto.isRenewal, clientId, userId, now)
      && service.payments == old(service.payments) + [r.value]
  {
    if !MayCreate(role) {
      return Err(RoleGuardDenied);
    }
    r := service.Create(clientId, dto, userId, role, now);
  }

  /** `findByClient` has no guard: the service alone decides, so ADMIN,
      PROJECT_MANAGER and SALES_MANAGER are served and SPECIALIST and
      DESIGNER are refused by the service. */
  function FindByClient(service: PaymentsService, clientId: ClientId, userId: UserId, role: Role)
    : (r: Result<seq<Payment>>)
    reads service
    ensures role in {Admin, ProjectManager, SalesManager} ==> r.Ok?
    ensures r.Err? ==> r.error == ReadForbidden
    ensures r.Ok? ==>
      forall p :: multiset(r.value)[p] == if Visible(p, clientId, userId, role) then multiset(service.payments)[p] else 0
  {
    service.FindByClient(clientId, userId, role)
  }

  /** `getRenewals`: a missing month, the empty month and one the `YYYY-MM`
      pattern refuses are refused with a 403 whatever the caller's role; the
      month check comes before the service's role check. A well-formed
      month is passed on unchanged with the caller's id and role. */
  function GetRenewals(service: PaymentsService, month: Option<string>, userId: UserId, role: Role)
    : (r: Result<Renewals>)
    reads service, service.store
    requires service.Valid()
    ensures month.None? || !IsMonthText(month.value) ==> r == Err(MalformedMonth) && HttpStatus(r.error) == 403
    ensures month.Some? && IsMonthText(month.value) ==>
      && (r.Err? <==> role != Admin && role != Specialist)
      && (r.Err? ==> r.error == RenewalsForbidden)
      && (r.Ok? ==> r.value.month == month.value && r.value.totalRenewals == |r.value.clients|)
    ensures month.Some? && IsMonthText(month.value) ==> r == service.GetRenewals(month.value, userId, role)
  {
    if month.None? || !IsMonthText(month.value) then Err(MalformedMonth)
    else service.GetRenewals(month.value, userId, role)
  }
}
