/**
 One row of the `waitlist` table as the dashboard receives it, and the
 JavaScript views of it the pipeline uses: the ordered list of its values
 (`Object.values`), its keys (`Object.keys`), the text of each value, and
 truthiness.
 */
module Entries {
  import opened Text

  datatype Option<+T> = None | Some(value: T)

  /** A local hour of the day and a day of the week (0 = Sunday), as `getHours` and `getDay` give them. */
  type Hour = h: int | 0 <= h < 24
  type Weekday = d: int | 0 <= d < 7

  /** The instant a valid timestamp denotes, with its local hour and weekday. */
  datatype Moment = Moment(time: int, hour: Hour, weekday: Weekday)

  /**
   A timestamp column: the ISO-8601 text the table stores, and what
   `new Date(text)` makes of it (`None` for an invalid date, whose every
   comparison is false).
   */
  datatype Stamp = Stamp(iso: string, moment: Option<Moment>)

  /** A waitlist row; the optional columns are `None` when the table holds null. */
  datatype Entry = Entry(
    id: int,
    email: Option<string>,
    name: Option<string>,
    phone: Option<string>,
    gender: Option<string>,
    age: Option<int>,
    instagram: Option<string>,
    linkedin: Option<string>,
    twitter: Option<string>,
    priorityScore: Option<int>,
    accessCode: Option<string>,
    batchNumber: Option<int>,
    location: Option<string>,
    createdAt: Stamp,
    updatedAt: Stamp)

  /** The columns, as `keyof WaitlistEntry`. */
  datatype Field =
    | Id | Email | Name | Phone | Gender | Age | Instagram | Linkedin | Twitter
    | PriorityScore | AccessCode | BatchNumber | Location | CreatedAt | UpdatedAt

  /** The fields in the order the row object carries its keys. */
  const Fields: seq<Field> := [Id, Email, Name, Phone, Gender, Age, Instagram, Linkedin, Twitter,
                              PriorityScore, AccessCode, BatchNumber, Location, CreatedAt, UpdatedAt]

  /** A JavaScript value held by a column. */
  datatype Value = Null | Str(s: string) | Num(n: int)

  /** The column name, as the key of the row object. */
  function FieldName(f: Field): string {
    match f
    case Id => "id"
    case Email => "email"
    case Name => "name"
    case Phone => "phone"
    case Gender => "gender"
    case Age => "age"
    case Instagram => "instagram"
    case Linkedin => "linkedin"
    case Twitter => "twitter"
    case PriorityScore => "priority_score"
    case AccessCode => "access_code"
    case BatchNumber => "batch_number"
    case Location => "location"
    case CreatedAt => "created_at"
    case UpdatedAt => "updated_at"
  }

  function TextValue(o: Option<string>): Value {
    match o
    case None => Null
    case Some(s) => Str(s)
  }

  function NumValue(o: Option<int>): Value {
    match o
    case None => Null
    case Some(n) => Num(n)
  }

  /** `entry[f]`. */
  function Get(e: Entry, f: Field): Value {
    match f
    case Id => Num(e.id)
    case Email => TextValue(e.email)
    case Name => TextValue(e.name)
    case Phone => TextValue(e.phone)
    case Gender => TextValue(e.gender)
    case Age => NumValue(e.age)
    case Instagram => TextValue(e.instagram)
    case Linkedin => TextValue(e.linkedin)
    case Twitter => TextValue(e.twitter)
    case PriorityScore => NumValue(e.priorityScore)
    case AccessCode => TextValue(e.accessCode)
    case BatchNumber => NumValue(e.batchNumber)
    case Location => TextValue(e.location)
    case CreatedAt => Str(e.createdAt.iso)
    case UpdatedAt => Str(e.updatedAt.iso)
  }

  /** The columns that hold numbers; the others hold text. */
  predicate IsNumeric(f: Field) {
    f == Id || f == Age || f == PriorityScore || f == BatchNumber
  }

  /** `Object.values(entry)`. */
  function Values(e: Entry): seq<Value> {
    seq(|Fields|, k requires 0 <= k < |Fields| => Get(e, Fields[k]))
  }

  /** `Object.keys(entry)`. */
  function Keys(): (r: seq<string>)
    ensures |r| == |Fields|
  {
    seq(|Fields|, k requires 0 <= k < |Fields| => FieldName(Fields[k]))
  }

  /** `value?.toString()`: no text for null. */
  function ToText(v: Value): Option<string> {
    match v
    case Null => None
    case Str(s) => Some(s)
    case Num(n) => Some(IntToText(n))
  }

  /** How `Array.prototype.join` writes a value: null as the empty string. */
  function JoinText(v: Value): string {
    match v
    case Null => ""
    case Str(s) => s
    case Num(n) => IntToText(n)
  }

  /** JavaScript truthiness of an optional text column: null and `''` are falsy. */
  predicate Truthy(o: Option<string>) {
    o.Some? && o.value != ""
  }

  /** JavaScript truthiness of an optional number column: null and `0` are falsy. */
  predicate TruthyNum(o: Option<int>) {
    o.Some? && o.value != 0
  }

  /** `o || 0` for a number column. */
  function OrZero(o: Option<int>): (r: int)
    ensures TruthyNum(o) ==> r == o.value
    ensures !TruthyNum(o) ==> r == 0
  {
    if o.Some? then o.value else 0
  }

  /** `e.f && e.f.trim() !== ''`: present and not blank. */
  predicate Filled(o: Option<string>) {
    Truthy(o) && !IsBlank(o.value)
  }
}
