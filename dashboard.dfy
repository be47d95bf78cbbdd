/** `DashboardService`: the monthly personal dashboard. The role picks a
    filter and a date field; the clients the filter admits whose date falls
    in the calendar month are counted and listed, newest first. Nothing is
    written. */
module Dashboard {
  import opened Common
  import opened Seqs
  import opened Calendar
  import opened Clients

  /** The date column a role's dashboard windows and orders by. */
  datatype DateField = AssignedAtField | DesignerAssignedAtField | CreatedAtField

  /** The fixed projection of a client the dashboard lists. */
  datatype DashboardRow = DashboardRow(
    id: ClientId,
    fullName: Option<string>,
    companyName: Option<string>,
    phone: string,
    email: Option<string>,
    status: ClientStatus,
    services: seq<string>,
    createdAt: int,
    assignedAt: Option<int>,
    designerAssignedAt: Option<int>)

  datatype PersonalDashboard = PersonalDashboard(
    count: nat,
    clients: seq<DashboardRow>,
    month: int,
    year: int,
    role: Option<Role>)

  datatype UserDashboard = UserDashboard(dashboard: PersonalDashboard, user: User)

  const UserNotFound: Error := NotFound("Пользователь не найден")

  /** The `switch` on the role: SPECIALIST, DESIGNER and SALES_MANAGER have
      a dashboard; every other role, and no role, has none. */
  function FieldFor(role: Option<Role>): (f: Option<DateField>)
    ensures f.Some? <==> role == Some(Specialist) || role == Some(Designer) || role == Some(SalesManager)
  {
    match role
    case Some(Specialist) => Some(AssignedAtField)
    case Some(Designer) => Some(DesignerAssignedAtField)
    case Some(SalesManager) => Some(CreatedAtField)
    case _ => None
  }

  function DateOf(c: Client, field: DateField): Option<int>
  {
    match field
    case AssignedAtField => c.assignedAt
    case DesignerAssignedAtField => c.designerAssignedAt
    case CreatedAtField => Some(c.createdAt)
  }

  /** The ownership half of the role's filter: the caller's acknowledged
      specialist assignment, the caller's acknowledged designer assignment,
      or a client the caller created. */
  predicate Owns(c: Client, field: DateField, userId: UserId)
  {
    match field
    case AssignedAtField => c.assignedToId == Some(userId) && c.assignmentSeen
    case DesignerAssignedAtField => c.designerId == Some(userId) && c.designerAssignmentSeen
    case CreatedAtField => c.createdById == userId
  }

  /** `{ gte: start, lte: end }` on a nullable date: a null date is never in
      the window. */
  predicate InWindow(t: Option<int>, start: int, end: int)
  {
    t.Some? && start <= t.value <= end
  }

  /** The whole `where` of the role's query for the window `start..end`. */
  predicate Selected(c: Client, field: DateField, userId: UserId, start: int, end: int)
  {
    Owns(c, field, userId) && InWindow(DateOf(c, field), start, end)
  }

  /** `orderBy: { [dateField]: 'desc' }` as a key. */
  function SortKey(field: DateField): Client -> int
  {
    (c: Client) => var d := DateOf(c, field); if d.Some? then d.value else 0
  }

  function RowKey(field: DateField): DashboardRow -> int
  {
    (row: DashboardRow) =>
      match field
      case AssignedAtField => if row.assignedAt.Some? then row.assignedAt.value else 0
      case DesignerAssignedAtField => if row.designerAssignedAt.Some? then row.designerAssignedAt.value else 0
      case CreatedAtField => row.createdAt
  }

  function RowOf(c: Client): (row: DashboardRow)
    ensures row.id == c.id && row.createdAt == c.createdAt
    ensures row.assignedAt == c.assignedAt && row.designerAssignedAt == c.designerAssignedAt
  {
    DashboardRow(c.id, c.fullName, c.companyName, c.phone, c.email, c.status, c.services,
                 c.createdAt, c.assignedAt, c.designerAssignedAt)
  }

  /** Projecting a list keeps its order by the role's date. */
  lemma RowsSorted(cs: seq<Client>, field: DateField)
    requires SortedDesc(cs, SortKey(field))
    ensures SortedDesc(Map(cs, RowOf), RowKey(field))
  {
    var rows := Map(cs, RowOf);
    forall i, j | 0 <= i < j < |rows| ensures RowKey(field)(rows[i]) >= RowKey(field)(rows[j]) {
      assert RowKey(field)(rows[i]) == SortKey(field)(cs[i]);
      assert RowKey(field)(rows[j]) == SortKey(field)(cs[j]);
    }
  }

  /** `prisma.client.count({ where })`. */
  function CountWhere(clients: seq<Client>, field: DateField, userId: UserId, start: int, end: int): nat
  {
    |Filter(clients, (c: Client) => Selected(c, field, userId, start, end))|
  }

  /** `prisma.client.findMany({ where, select, orderBy })`: the projections
      of exactly the clients the filter admits, newest first by the role's
      date; there are as many as `count` counts. */
  function FindWhere(clients: seq<Client>, field: DateField, userId: UserId, start: int, end: int)
    : (rows: seq<DashboardRow>)
    ensures |rows| == CountWhere(clients, field, userId, start, end)
    ensures forall row :: row in rows <==> exists c :: c in clients && Selected(c, field, userId, start, end) && row == RowOf(c)
    ensures SortedDesc(rows, RowKey(field))
  {
    var matching := Filter(clients, (c: Client) => Selected(c, field, userId, start, end));
    var selected := SortDesc(matching, SortKey(field));
    RowsSorted(selected, field);
    var rows := Map(selected, RowOf);
    forall row | row in rows ensures exists c :: c in clients && Selected(c, field, userId, start, end) && row == RowOf(c) {
      var i :| 0 <= i < |rows| && rows[i] == row;
      assert selected[i] in selected && selected[i] in matching;
    }
    forall row | exists c :: c in clients && Selected(c, field, userId, start, end) && row == RowOf(c) ensures row in rows {
      var c :| c in clients && Selected(c, field, userId, start, end) && row == RowOf(c);
      assert c in matching && c in selected;
      var i :| 0 <= i < |selected| && selected[i] == c;
      assert rows[i] == row;
    }
    rows
  }

  /** `getPersonalDashboard`: for a role without a dashboard, count 0 and
      no rows, never an error. Otherwise exactly the clients the role's
      filter and the month window admit, projected, newest first by the
      role's date; the count, taken by a query of its own, equals the
      number of rows. Month, year and role are echoed unchanged. Archived
      clients are not excluded. */
  function GetPersonalDashboard(clients: seq<Client>, userId: UserId, role: Option<Role>, year: int, month: int)
    : (r: PersonalDashboard)
    ensures r.month == month && r.year == year && r.role == role
    ensures r.count == |r.clients|
    ensures FieldFor(role).None? ==> r.count == 0 && r.clients == []
    ensures FieldFor(role).Some? ==>
      r.clients == FindWhere(clients, FieldFor(role).value, userId, MonthStart(year, month), MonthEnd(year, month))
  {
    var field := FieldFor(role);
    if field.None? then PersonalDashboard(0, [], month, year, role)
    else InWindowOf(clients, field.value, userId, MonthStart(year, month), MonthEnd(year, month), year, month, role)
  }

  /** The dashboard of the window `start..end`: the count query and the
      list query over the same filter. */
  function InWindowOf(clients: seq<Client>, field: DateField, userId: UserId, start: int, end: int,
                      year: int, month: int, role: Option<Role>): (r: PersonalDashboard)
    ensures r.month == month && r.year == year && r.role == role
    ensures r.count == |r.clients|
    ensures r.clients == FindWhere(clients, field, userId, start, end)
  {
    PersonalDashboard(CountWhere(clients, field, userId, start, end), FindWhere(clients, field, userId, start, end),
                      month, year, role)
  }

  /** Every row of a specialist's list for the window `start..end` (the
      month window when it comes from `GetPersonalDashboard`) is a client
      assigned to the caller, acknowledged, and assigned within the window. */
  lemma SpecialistRows(clients: seq<Client>, userId: UserId, start: int, end: int, row: DashboardRow)
    requires row in FindWhere(clients, AssignedAtField, userId, start, end)
    ensures exists c :: && c in clients && row == RowOf(c)
                        && c.assignedToId == Some(userId) && c.assignmentSeen && c.assignedAt.Some?
                        && start <= c.assignedAt.value <= end
  {
    var c :| c in clients && Selected(c, AssignedAtField, userId, start, end) && row == RowOf(c);
  }

  /** A sales manager's list for the window `start..end` shows every client
      the caller created within the window, whatever its assignment. */
  lemma SalesManagerRows(clients: seq<Client>, userId: UserId, start: int, end: int, c: Client)
    requires c in clients && c.createdById == userId && start <= c.createdAt <= end
    ensures RowOf(c) in FindWhere(clients, CreatedAtField, userId, start, end)
  {
    assert Selected(c, CreatedAtField, userId, start, end);
  }

  /** `getUserDashboard`: NotFound for an unknown user; otherwise the
      target's own dashboard, computed with the target's role, together
      with the target's id, name and role. */
  function GetUserDashboard(users: map<UserId, User>, clients: seq<Client>, targetUserId: UserId, year: int, month: int)
    : (r: Result<UserDashboard>)
    requires KeyedById(users)
    ensures r.Err? <==> targetUserId !in users
    ensures r.Err? ==> r.error == UserNotFound
    ensures r.Ok? ==>
      && r.value.user == users[targetUserId] && r.value.user.id == targetUserId
      && r.value.dashboard == GetPersonalDashboard(clients, targetUserId, Some(users[targetUserId].role), year, month)
  {
    match FindUser(users, targetUserId)
    case None => Err(UserNotFound)
    case Some(target) =>
      Ok(UserDashboard(GetPersonalDashboard(clients, targetUserId, Some(target.role), year, month),
                       User(target.id, target.fullName, target.role)))
  }
}
