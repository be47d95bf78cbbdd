/** `DashboardQueryDto` and `AdminDashboardQueryDto`: the query of the
    personal and the per-user dashboard, after `@Type(() => Number)` has
    turned `year` and `month` into numbers. */
module DashboardQueryDto {
  import opened Common
  import opened Json
  import opened Validators

  /** `year` is an integer in 2020..2100 and `month` an integer in 1..12. */
  predicate IsValid(query: map<string, Value>)
  {
    var year, month := Prop(query, "year"), Prop(query, "month");
    && IsInt(year) && Min(year, 2020.0) && Max(year, 2100.0)
    && IsInt(month) && Min(month, 1.0) && Max(month, 12.0)
  }

  /** The same bounds, and an optional string `userId`. */
  predicate IsValidAdmin(query: map<string, Value>)
  {
    var userId := Prop(query, "userId");
    IsValid(query) && Optional(userId, IsString(userId))
  }

  datatype DashboardQuery = DashboardQuery(year: int, month: int)

  datatype AdminDashboardQuery = AdminDashboardQuery(year: int, month: int, userId: Option<string>)

  predicate InRange(year: int, month: int)
  {
    2020 <= year <= 2100 && 1 <= month <= 12
  }

  /** An integral number, as an `int`. */
  function IntOf(v: Option<Value>): (r: Option<int>)
    ensures r.Some? <==> IsInt(v)
    ensures r.Some? ==> v == Some(JNumber(r.value as real))
  {
    match v
    case Some(JNumber(n)) => if n.Floor as real == n then Some(n.Floor) else None
    case _ => None
  }

  function Parse(query: map<string, Value>): (r: Option<DashboardQuery>)
    ensures r.Some? <==> IsValid(query)
    ensures r.Some? ==> InRange(r.value.year, r.value.month)
    ensures r.Some? ==>
      Prop(query, "year") == Some(JNumber(r.value.year as real)) && Prop(query, "month") == Some(JNumber(r.value.month as real))
  {
    match (IntOf(Prop(query, "year")), IntOf(Prop(query, "month")))
    case (Some(y), Some(m)) => if InRange(y, m) then Some(DashboardQuery(y, m)) else None
    case _ => None
  }

  function ParseAdmin(query: map<string, Value>): (r: Option<AdminDashboardQuery>)
    ensures r.Some? <==> IsValidAdmin(query)
    ensures r.Some? ==> InRange(r.value.year, r.value.month)
    ensures r.Some? ==>
      && Prop(query, "year") == Some(JNumber(r.value.year as real))
      && Prop(query, "month") == Some(JNumber(r.value.month as real))
      && (r.value.userId.Some? ==> Prop(query, "userId") == Some(JString(r.value.userId.value)))
      && (r.value.userId.None? ==> IsAbsent(Prop(query, "userId")))
  {
    match (Parse(query), ReadOptionalString(Prop(query, "userId")))
    case (Some(base), Some(userId)) => Some(AdminDashboardQuery(base.year, base.month, userId))
    case _ => None
  }

  function Encode(q: DashboardQuery): map<string, Value>
  {
    map["year" := JNumber(q.year as real), "month" := JNumber(q.month as real)]
  }

  function EncodeAdmin(q: AdminDashboardQuery): map<string, Value>
  {
    var base := Encode(DashboardQuery(q.year, q.month));
    if q.userId.Some? then base["userId" := JString(q.userId.value)] else base
  }

  lemma ParseEncode(q: DashboardQuery)
    requires InRange(q.year, q.month)
    ensures Parse(Encode(q)) == Some(q)
  {
  }

  lemma ParseEncodeAdmin(q: AdminDashboardQuery)
    requires InRange(q.year, q.month)
    ensures ParseAdmin(EncodeAdmin(q)) == Some(q)
  {
  }

  /** The admin query keeps the bounds of the personal one: whatever it
      accepts, the personal query accepts with the same year and month. */
  lemma AdminKeepsBounds(query: map<string, Value>)
    requires IsValidAdmin(query)
    ensures Parse(query) == Some(DashboardQuery(ParseAdmin(query).value.year, ParseAdmin(query).value.month))
  {
  }

  /** The year bounds are inclusive: 2019 and 2101 are refused, 2020 and
      2100 accepted; month 0 and 13 are refused. */
  lemma Boundaries()
    ensures !IsValid(Encode(DashboardQuery(2019, 6))) && !IsValid(Encode(DashboardQuery(2101, 6)))
    ensures IsValid(Encode(DashboardQuery(2020, 6))) && IsValid(Encode(DashboardQuery(2100, 6)))
    ensures !IsValid(Encode(DashboardQuery(2026, 0))) && !IsValid(Encode(DashboardQuery(2026, 13)))
  {
    ParseEncode(DashboardQuery(2020, 6));
    ParseEncode(DashboardQuery(2100, 6));
  }
}
