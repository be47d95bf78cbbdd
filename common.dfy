/** Types shared by every service of the CRM: roles, ids, users, client
    statuses and the typed errors the services throw. */
module Common {

  datatype Option<+T> = None | Some(value: T)

  /** The user roles of the Prisma `Role` enum. ADMIN and PROJECT_MANAGER are
      two distinct values: the services gate on each of them separately. */
  datatype Role = Admin | ProjectManager | SalesManager | Specialist | Designer

  /** User ids are UUID strings; an id is never the empty string. */
  type UserId = s: string | |s| > 0 witness "0"

  /** Client ids are the row numbers the client table allocates. */
  type ClientId = nat

  /** A row of the user table, as the services read it. */
  datatype User = User(id: UserId, fullName: string, role: Role)

  /** A value of the client status enum. Only ASSIGNED and IN_WORK are
      written by the services; every other value of the enum is carried by
      `Other`. */
  datatype StatusValue = Assigned | InWork | Other(code: string)

  /** The enum values, each written one way only: `Other` never spells one
      of the two named values, so two statuses are equal exactly when their
      names are. No enum value is the empty string, so every status is
      truthy in JavaScript. */
  type ClientStatus = s: StatusValue | s.Other? ==> s.code != "" && s.code != "ASSIGNED" && s.code != "IN_WORK"
    witness Assigned

  /** The enum value as it is stored and printed. */
  function StatusName(s: StatusValue): string
  {
    match s
    case Assigned => "ASSIGNED"
    case InWork => "IN_WORK"
    case Other(code) => code
  }

  /** The status an enum value name denotes. */
  function StatusFromName(name: string): (s: ClientStatus)
    requires name != ""
    ensures StatusName(s) == name
  {
    if name == "ASSIGNED" then Assigned
    else if name == "IN_WORK" then InWork
    else Other(name)
  }

  /** A status is determined by its name. */
  lemma StatusNameInjective(a: ClientStatus, b: ClientStatus)
    ensures StatusName(a) == StatusName(b) <==> a == b
    ensures StatusFromName(StatusName(a)) == a
  {
  }

  /** The NestJS HTTP exceptions the services throw, with their message;
      `ServerError` is any other exception, which Nest answers with 500. */
  datatype Error =
    | NotFound(message: string)    // 404
    | Forbidden(message: string)   // 403
    | BadRequest(message: string)  // 400
    | ServerError(message: string) // 500

  function HttpStatus(e: Error): int
  {
    match e
    case NotFound(_) => 404
    case Forbidden(_) => 403
    case BadRequest(_) => 400
    case ServerError(_) => 500
  }

  datatype Result<+T> = Ok(value: T) | Err(error: Error)

  /** JavaScript truthiness of an optional string: absent, null and "" are falsy. */
  predicate Truthy(s: Option<string>)
  {
    s.Some? && s.value != ""
  }

  /** `a || b` on two optional strings. */
  function OrElse(a: Option<string>, b: Option<string>): Option<string>
  {
    if Truthy(a) then a else b
  }

  /** One field of a Prisma `update`: `undefined` keeps the stored value,
      `null` clears it, anything else replaces it. */
  datatype Patch<+T> = Keep | Clear | Set(value: T)

  function Apply<T>(p: Patch<T>, current: Option<T>): (r: Option<T>)
    ensures p.Keep? ==> r == current
    ensures p.Clear? ==> r.None?
    ensures p.Set? ==> r == Some(p.value)
  {
    match p
    case Keep => current
    case Clear => None
    case Set(v) => Some(v)
  }

  /** The user table is keyed by the users' own ids. */
  predicate KeyedById(users: map<UserId, User>)
  {
    forall k :: k in users ==> users[k].id == k
  }

  /** The user table lookup `user.findUnique({ where: { id } })`. */
  function FindUser(users: map<UserId, User>, id: UserId): Option<User>
  {
    if id in users then Some(users[id]) else None
  }
}
