/** The class-validator decorators the DTOs use, each as a predicate on the
    value a property holds after the body is parsed (`None` when the
    property is `undefined`). */
module Validators {
  import opened Common
  import opened Json

  /** `null` or `undefined`: what `@IsOptional()` lets through unchecked. */
  predicate IsAbsent(v: Option<Value>)
  {
    v.None? || v.value.JNull?
  }

  /** `@IsOptional()` in front of the constraints `p`. */
  predicate Optional(v: Option<Value>, p: bool)
  {
    IsAbsent(v) || p
  }

  /** `@IsNotEmpty()`: anything but `''`, `null` and `undefined`. */
  predicate IsNotEmpty(v: Option<Value>)
  {
    !IsAbsent(v) && v.value != JString("")
  }

  /** `@IsInt()`: a number that `Number.isInteger` accepts. */
  predicate IsInt(v: Option<Value>)
  {
    v.Some? && v.value.JNumber? && v.value.n.Floor as real == v.value.n
  }

  predicate IsNumber(v: Option<Value>)
  {
    v.Some? && v.value.JNumber?
  }

  /** `@Min(m)`: a number not below `m`. */
  predicate Min(v: Option<Value>, m: real)
  {
    IsNumber(v) && v.value.n >= m
  }

  /** `@Max(m)`: a number not above `m`. */
  predicate Max(v: Option<Value>, m: real)
  {
    IsNumber(v) && v.value.n <= m
  }

  predicate IsString(v: Option<Value>)
  {
    v.Some? && v.value.JString?
  }

  predicate IsBoolean(v: Option<Value>)
  {
    v.Some? && v.value.JBool?
  }

  /** `@Matches(re)`: a string the pattern accepts. */
  predicate Matches(v: Option<Value>, pattern: string -> bool)
  {
    IsString(v) && pattern(v.value.s)
  }

  predicate IsArray(v: Option<Value>)
  {
    v.Some? && v.value.JArray?
  }

  predicate ArrayNotEmpty(v: Option<Value>)
  {
    IsArray(v) && |v.value.items| > 0
  }

  /** `@IsString({ each: true })`: every element of an array is a string; a
      value that is not an array is checked itself. */
  predicate EachString(v: Option<Value>)
  {
    if IsArray(v) then forall i :: 0 <= i < |v.value.items| ==> v.value.items[i].JString?
    else IsString(v)
  }

  /** `@IsEnum(E)` on a string enum: one of the enum's values. */
  predicate IsEnumValue(v: Option<Value>, values: set<string>)
  {
    IsString(v) && v.value.s in values
  }

  /** `@IsEmail()`: a string the email check accepts. */
  predicate IsEmail(v: Option<Value>, isEmail: string -> bool)
  {
    IsString(v) && isEmail(v.value.s)
  }

  /** The string an `@IsOptional() @IsString()` property carries: `None` when
      it is invalid, `Some(None)` when it is absent or null. */
  function ReadOptionalString(v: Option<Value>): (r: Option<Option<string>>)
    ensures r.Some? <==> Optional(v, IsString(v))
    ensures r == Some(None) <==> IsAbsent(v)
    ensures r.Some? && r.value.Some? ==> v == Some(JString(r.value.value))
  {
    match v
    case None => Some(None)
    case Some(JNull) => Some(None)
    case Some(JString(s)) => Some(Some(s))
    case Some(_) => None
  }

  /** The property `key` of a parsed body; `None` is `undefined`. */
  function Prop(body: map<string, Value>, key: string): Option<Value>
  {
    if key in body then Some(body[key]) else None
  }
}
