/** `CreateClientDto`: the body of `POST /clients`. */
module CreateClientDto {
  import opened Common
  import opened Json
  import opened Validators
  import opened Patterns

  /** Every decorator of the class holds. The names, the group and the notes
      are each an optional string; the phone is required and matches the
      phone pattern; the services are a non-empty array of strings; the
      payment amount is optional and, when given, a number of at least 0.
      Neither name is required here: the service checks that rule. */
  predicate IsValid(body: map<string, Value>)
  {
    var fullName, companyName := Prop(body, "fullName"), Prop(body, "companyName");
    var phone, groupName := Prop(body, "phone"), Prop(body, "groupName");
    var services, notes, paymentAmount := Prop(body, "services"), Prop(body, "notes"), Prop(body, "paymentAmount");
    && Optional(fullName, IsString(fullName))
    && Optional(companyName, IsString(companyName))
    && IsNotEmpty(phone) && Matches(phone, IsPhone)
    && Optional(groupName, IsString(groupName))
    && IsArray(services) && ArrayNotEmpty(services) && EachString(services)
    && Optional(notes, IsString(notes))
    && Optional(paymentAmount, IsNumber(paymentAmount) && Min(paymentAmount, 0.0))
  }

  /** The typed body. `email` and `source` are not declared by the class but
      are read by the service, so they are carried when they are strings. */
  datatype CreateClient = CreateClient(
    fullName: Option<string>,
    companyName: Option<string>,
    phone: string,
    email: Option<string>,
    source: Option<string>,
    groupName: Option<string>,
    services: seq<string>,
    notes: Option<string>,
    paymentAmount: Option<real>)

  predicate WellFormed(dto: CreateClient)
  {
    && IsPhone(dto.phone)
    && |dto.services| > 0
    && (dto.paymentAmount.Some? ==> dto.paymentAmount.value >= 0.0)
  }

  /** A string property nothing validates: kept when it is a string. */
  function Loose(v: Option<Value>): Option<string>
  {
    if v.Some? && v.value.JString? then Some(v.value.s) else None
  }

  /** The JSON array of a list of service names. */
  function ServiceValues(names: seq<string>): (r: seq<Value>)
    ensures |r| == |names| && forall i :: 0 <= i < |names| ==> r[i] == JString(names[i])
  {
    seq(|names|, i requires 0 <= i < |names| => JString(names[i]))
  }

  function ServiceNames(items: seq<Value>): (r: seq<string>)
    requires forall i :: 0 <= i < |items| ==> items[i].JString?
    ensures |r| == |items| && forall i :: 0 <= i < |items| ==> items[i] == JString(r[i])
    ensures ServiceValues(r) == items
  {
    seq(|items|, i requires 0 <= i < |items| => items[i].s)
  }

  function ReadAmount(v: Option<Value>): (r: Option<Option<real>>)
    ensures r.Some? <==> Optional(v, IsNumber(v) && Min(v, 0.0))
    ensures r == Some(None) <==> IsAbsent(v)
    ensures r.Some? && r.value.Some? ==> v == Some(JNumber(r.value.value)) && r.value.value >= 0.0
  {
    match v
    case None => Some(None)
    case Some(JNull) => Some(None)
    case Some(JNumber(n)) => if n >= 0.0 then Some(Some(n)) else None
    case Some(_) => None
  }

  function Parse(body: map<string, Value>): (r: Option<CreateClient>)
    ensures r.Some? <==> IsValid(body)
    ensures r.Some? ==> WellFormed(r.value)
    ensures r.Some? ==>
      && Prop(body, "phone") == Some(JString(r.value.phone))
      && Prop(body, "services") == Some(JArray(ServiceValues(r.value.services)))
  {
    var phone, services := Prop(body, "phone"), Prop(body, "services");
    match (ReadOptionalString(Prop(body, "fullName")), ReadOptionalString(Prop(body, "companyName")),
           ReadOptionalString(Prop(body, "groupName")), ReadOptionalString(Prop(body, "notes")),
           ReadAmount(Prop(body, "paymentAmount")))
    case (Some(fullName), Some(companyName), Some(groupName), Some(notes), Some(amount)) =>
      if phone.Some? && phone.value.JString? && IsPhone(phone.value.s)
         && services.Some? && services.value.JArray? && |services.value.items| > 0
         && (forall i :: 0 <= i < |services.value.items| ==> services.value.items[i].JString?)
      then
        var names := ServiceNames(services.value.items);
        Some(CreateClient(fullName, companyName, phone.value.s, Loose(Prop(body, "email")), Loose(Prop(body, "source")),
                          groupName, names, notes, amount))
      else None
    case _ => None
  }

  function OptionalText(s: Option<string>): Value
  {
    if s.Some? then JString(s.value) else JNull
  }

  function Encode(dto: CreateClient): map<string, Value>
  {
    map[
      "fullName" := OptionalText(dto.fullName),
      "companyName" := OptionalText(dto.companyName),
      "phone" := JString(dto.phone),
      "email" := OptionalText(dto.email),
      "source" := OptionalText(dto.source),
      "groupName" := OptionalText(dto.groupName),
      "services" := JArray(ServiceValues(dto.services)),
      "notes" := OptionalText(dto.notes),
      "paymentAmount" := if dto.paymentAmount.Some? then JNumber(dto.paymentAmount.value) else JNull]
  }

  /** Every well-formed body has an encoding that validates, and parsing it
      gives the body back. */
  lemma ParseEncode(dto: CreateClient)
    requires WellFormed(dto)
    ensures Parse(Encode(dto)) == Some(dto)
  {
    var body := Encode(dto);
    assert ReadOptionalString(Prop(body, "fullName")) == Some(dto.fullName);
    assert ReadOptionalString(Prop(body, "companyName")) == Some(dto.companyName);
    assert ReadOptionalString(Prop(body, "groupName")) == Some(dto.groupName);
    assert ReadOptionalString(Prop(body, "notes")) == Some(dto.notes);
    assert ReadAmount(Prop(body, "paymentAmount")) == Some(dto.paymentAmount);
    assert Loose(Prop(body, "email")) == dto.email && Loose(Prop(body, "source")) == dto.source;
    assert Prop(body, "phone") == Some(JString(dto.phone));
    assert Prop(body, "services") == Some(JArray(ServiceValues(dto.services)));
    assert ServiceNames(ServiceValues(dto.services)) == dto.services;
  }

  /** The service's "full name or company name" rule is not part of the
      DTO: a body with neither name validates. A leading `+` is optional on
      the phone, and an empty services array is refused. */
  lemma NamesNotRequired(phone: string, service: string)
    requires IsPhone(phone)
    ensures IsValid(Encode(CreateClient(None, None, phone, None, None, None, [service], None, None)))
    ensures !IsValid(Encode(CreateClient(None, None, phone, None, None, None, [], None, None)))
  {
    ParseEncode(CreateClient(None, None, phone, None, None, None, [service], None, None));
  }

  /** Any accepted phone is 7 to 21 characters long. */
  lemma AcceptedPhoneLength(body: map<string, Value>)
    requires IsValid(body)
    ensures 7 <= |Prop(body, "phone").value.s| <= 21
  {
    PhoneShape(Prop(body, "phone").value.s);
  }
}
