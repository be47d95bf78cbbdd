/** `CreatePaymentDto`: the body of `POST /clients/:clientId/payments`. */
module CreatePaymentDto {
  import opened Common
  import opened Json
  import opened Validators
  import opened Patterns

  /** Every decorator of the class holds: `amount` is present, an integer and
      at least 1; `month` is present and a `YYYY-MM` month; `isRenewal` is
      present and a boolean. */
  predicate IsValid(body: map<string, Value>)
  {
    var amount, month, isRenewal := Prop(body, "amount"), Prop(body, "month"), Prop(body, "isRenewal");
    && IsNotEmpty(amount) && IsInt(amount) && Min(amount, 1.0)
    && IsNotEmpty(month) && Matches(month, IsMonthText)
    && IsNotEmpty(isRenewal) && IsBoolean(isRenewal)
  }

  datatype CreatePayment = CreatePayment(amount: int, month: string, isRenewal: bool)

  /** What a validated payment body guarantees about its fields. */
  predicate WellFormed(dto: CreatePayment)
  {
    dto.amount >= 1 && IsMonthText(dto.month)
  }

  /** The typed DTO a body turns into, or `None` when validation refuses it. */
  function Parse(body: map<string, Value>): (r: Option<CreatePayment>)
    ensures r.Some? <==> IsValid(body)
    ensures r.Some? ==> WellFormed(r.value)
    ensures r.Some? ==>
      && Prop(body, "amount") == Some(JNumber(r.value.amount as real))
      && Prop(body, "month") == Some(JString(r.value.month))
      && Prop(body, "isRenewal") == Some(JBool(r.value.isRenewal))
  {
    match (Prop(body, "amount"), Prop(body, "month"), Prop(body, "isRenewal"))
    case (Some(JNumber(a)), Some(JString(m)), Some(JBool(b))) =>
      if a.Floor as real == a && a.Floor >= 1 && IsMonthText(m) then Some(CreatePayment(a.Floor, m, b)) else None
    case _ => None
  }

  function Encode(dto: CreatePayment): map<string, Value>
  {
    map["amount" := JNumber(dto.amount as real), "month" := JString(dto.month), "isRenewal" := JBool(dto.isRenewal)]
  }

  /** Every well-formed payment has a body that validates, and parsing it
      gives the payment back. */
  lemma ParseEncode(dto: CreatePayment)
    requires WellFormed(dto)
    ensures Parse(Encode(dto)) == Some(dto)
  {
  }

  /** An amount of 0 and a fractional amount are refused, 1 is accepted;
      `isRenewal: false` is accepted (`IsNotEmpty` only refuses `''`, `null`
      and `undefined`). */
  lemma AmountBoundary(month: string, isRenewal: bool)
    requires IsMonthText(month)
    ensures !IsValid(map["amount" := JNumber(0.0), "month" := JString(month), "isRenewal" := JBool(isRenewal)])
    ensures !IsValid(map["amount" := JNumber(1.5), "month" := JString(month), "isRenewal" := JBool(isRenewal)])
    ensures IsValid(map["amount" := JNumber(1.0), "month" := JString(month), "isRenewal" := JBool(isRenewal)])
  {
    ParseEncode(CreatePayment(1, month, isRenewal));
  }

  /** A body missing `amount`, `month` or `isRenewal` is refused. */
  lemma RequiredFields(body: map<string, Value>)
    requires IsValid(body)
    ensures "amount" in body && "month" in body && "isRenewal" in body
  {
  }

  /** The months `2026-00` and `2026-13` are refused. */
  lemma MonthOutOfRange(amount: int, isRenewal: bool)
    ensures !IsValid(Encode(CreatePayment(amount, "2026-00", isRenewal)))
    ensures !IsValid(Encode(CreatePayment(amount, "2026-13", isRenewal)))
  {
    MonthBoundaries();
  }
}
