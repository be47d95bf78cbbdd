/** `UpdateClientDto`: the body of `PATCH /clients/:id`. Every property is
    optional. The email check and the value set of the status enum belong to
    the validator library and the database schema; they are parameters. */
module UpdateClientDto {
  import opened Common
  import opened Json
  import opened Validators
  import opened Patterns

  /** The value names of the status enum of the schema; no enum value is
      the empty string. */
  type StatusNames = s: set<string> | "" !in s

  /** Every decorator of the class holds: each property is absent, null, or
      of its kind (a string; a phone the pattern accepts; an email; a value
      of the status enum). */
  predicate IsValid(body: map<string, Value>, isEmail: string -> bool, statusValues: StatusNames)
  {
    var fullName, companyName, phone := Prop(body, "fullName"), Prop(body, "companyName"), Prop(body, "phone");
    var email, source, notes, status := Prop(body, "email"), Prop(body, "source"), Prop(body, "notes"), Prop(body, "status");
    && Optional(fullName, IsString(fullName))
    && Optional(companyName, IsString(companyName))
    && Optional(phone, Matches(phone, IsPhone))
    && Optional(email, IsEmail(email, isEmail))
    && Optional(source, IsString(source))
    && Optional(notes, IsString(notes))
    && Optional(status, IsEnumValue(status, statusValues))
  }

  /** The typed body, as the `data` of the Prisma update: `Keep` for an
      absent property, `Clear` for `null`. `@IsOptional` lets `null` through
      for the phone and the status too, although their columns are not
      nullable: the update then refuses it. */
  datatype UpdateClient = UpdateClient(
    fullName: Patch<string>,
    companyName: Patch<string>,
    phone: Patch<string>,
    email: Patch<string>,
    source: Patch<string>,
    notes: Patch<string>,
    status: Patch<ClientStatus>)

  predicate WellFormed(u: UpdateClient, isEmail: string -> bool, statusValues: StatusNames)
  {
    && (u.phone.Set? ==> IsPhone(u.phone.value))
    && (u.email.Set? ==> isEmail(u.email.value))
    && (u.status.Set? ==> StatusName(u.status.value) in statusValues)
  }

  /** An optional string property as a patch; `None` when it is not a string. */
  function ReadPatch(v: Option<Value>): (r: Option<Patch<string>>)
    ensures r.Some? <==> Optional(v, IsString(v))
    ensures r == Some(Keep) <==> v.None?
    ensures r == Some(Clear) <==> v == Some(JNull)
    ensures r.Some? && r.value.Set? ==> v == Some(JString(r.value.value))
  {
    match v
    case None => Some(Keep)
    case Some(JNull) => Some(Clear)
    case Some(JString(s)) => Some(Set(s))
    case Some(_) => None
  }

  function Parse(body: map<string, Value>, isEmail: string -> bool, statusValues: StatusNames): (r: Option<UpdateClient>)
    ensures r.Some? <==> IsValid(body, isEmail, statusValues)
    ensures r.Some? ==> WellFormed(r.value, isEmail, statusValues)
    ensures r.Some? && r.value.status.Set? ==> Prop(body, "status") == Some(JString(StatusName(r.value.status.value)))
    ensures r.Some? && r.value.phone.Set? ==> Prop(body, "phone") == Some(JString(r.value.phone.value))
    ensures r.Some? ==> (r.value.phone.Clear? <==> Prop(body, "phone") == Some(JNull))
    ensures r.Some? ==> (r.value.status.Clear? <==> Prop(body, "status") == Some(JNull))
  {
    var phone, status := ReadPatch(Prop(body, "phone")), ReadPatch(Prop(body, "status"));
    match (ReadPatch(Prop(body, "fullName")), ReadPatch(Prop(body, "companyName")), ReadPatch(Prop(body, "email")),
           ReadPatch(Prop(body, "source")), ReadPatch(Prop(body, "notes")))
    case (Some(fullName), Some(companyName), Some(email), Some(source), Some(notes)) =>
      if phone.Some? && (phone.value.Set? ==> IsPhone(phone.value.value))
         && (email.Set? ==> isEmail(email.value))
         && status.Some? && (status.value.Set? ==> status.value.value in statusValues)
      then
        var st: Patch<ClientStatus> := match status.value
          case Keep => Keep
          case Clear => Clear
          case Set(name) => Set(StatusFromName(name));
        Some(UpdateClient(fullName, companyName, phone.value, email, source, notes, st))
      else None
    case _ => None
  }

  /** The property a patch turns into; `Keep` leaves it out. */
  function PatchValue(p: Patch<string>): Option<Value>
  {
    match p
    case Keep => None
    case Clear => Some(JNull)
    case Set(s) => Some(JString(s))
  }

  /** A status patch as the patch of its enum name. */
  function StatusPatchName(p: Patch<ClientStatus>): Patch<string>
  {
    match p
    case Keep => Keep
    case Clear => Clear
    case Set(st) => Set(StatusName(st))
  }

  const UpdateKeys: set<string> := {"fullName", "companyName", "phone", "email", "source", "notes", "status"}

  /** The property `key` of the body that carries update `u`. */
  function Entry(u: UpdateClient, key: string): Option<Value>
  {
    if key == "fullName" then PatchValue(u.fullName)
    else if key == "companyName" then PatchValue(u.companyName)
    else if key == "phone" then PatchValue(u.phone)
    else if key == "email" then PatchValue(u.email)
    else if key == "source" then PatchValue(u.source)
    else if key == "notes" then PatchValue(u.notes)
    else if key == "status" then PatchValue(StatusPatchName(u.status))
    else None
  }

  function Encode(u: UpdateClient): (body: map<string, Value>)
    ensures forall k :: k in UpdateKeys ==> Prop(body, k) == Entry(u, k)
  {
    map k | k in UpdateKeys && Entry(u, k).Some? :: Entry(u, k).value
  }

  /** Every well-formed update has a body that validates, and parsing it
      gives the update back. */
  lemma ParseEncode(u: UpdateClient, isEmail: string -> bool, statusValues: StatusNames)
    requires WellFormed(u, isEmail, statusValues)
    ensures Parse(Encode(u), isEmail, statusValues) == Some(u)
  {
    var body := Encode(u);
    assert Prop(body, "fullName") == PatchValue(u.fullName);
    assert Prop(body, "companyName") == PatchValue(u.companyName);
    assert Prop(body, "email") == PatchValue(u.email);
    assert Prop(body, "source") == PatchValue(u.source);
    assert Prop(body, "notes") == PatchValue(u.notes);
    assert ReadPatch(Prop(body, "fullName")) == Some(u.fullName);
    assert ReadPatch(Prop(body, "companyName")) == Some(u.companyName);
    assert ReadPatch(Prop(body, "email")) == Some(u.email);
    assert ReadPatch(Prop(body, "source")) == Some(u.source);
    assert ReadPatch(Prop(body, "notes")) == Some(u.notes);
    assert ReadPatch(Prop(body, "phone")) == Some(u.phone);
    assert ReadPatch(Prop(body, "status")) == Some(StatusPatchName(u.status));
    if u.status.Set? {
      StatusNameInjective(u.status.value, u.status.value);
    }
  }

  /** The empty body is a valid update that changes nothing. */
  lemma EmptyUpdate(isEmail: string -> bool, statusValues: StatusNames)
    ensures IsValid(map[], isEmail, statusValues)
    ensures Parse(map[], isEmail, statusValues) == Some(UpdateClient(Keep, Keep, Keep, Keep, Keep, Keep, Keep))
  {
  }

  /** `@IsOptional` lets `null` through for every property: a body that
      sets the phone or the status to `null` validates and asks to clear
      it. */
  lemma NullPassesValidation(isEmail: string -> bool, statusValues: StatusNames)
    ensures Parse(map["phone" := JNull], isEmail, statusValues) == Some(UpdateClient(Keep, Keep, Clear, Keep, Keep, Keep, Keep))
    ensures Parse(map["status" := JNull], isEmail, statusValues) == Some(UpdateClient(Keep, Keep, Keep, Keep, Keep, Keep, Clear))
  {
    assert Prop(map["phone" := JNull], "phone") == Some(JNull);
    assert Prop(map["status" := JNull], "status") == Some(JNull);
  }
}
