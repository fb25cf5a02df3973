/** The request shapes the reminder routes accept
    (backend/src/validations/reminder.validation.ts), as predicates over the
    validated part of a request: a map from key to value. Each Joi object
    schema rejects keys it does not list, and `Joi.string()` rejects the
    empty string. Whether a string is an ISO 8601 date is the parameter
    `isIsoDate`. */
module ReminderValidation {

  /** A request value after Joi's type coercion. */
  datatype Value =
    | Str(s: string)
    | Int(n: int)      // a number without a fractional part
    | Fraction         // any other number
    | Other            // a boolean, null, an array or an object

  type Fields = map<string, Value>

  /** `Joi.string()`. */
  predicate IsJoiString(v: Value) {
    v.Str? && v.s != ""
  }

  /** `Joi.string().isoDate()`. */
  predicate IsIsoDateString(v: Value, isIsoDate: string -> bool) {
    IsJoiString(v) && isIsoDate(v.s)
  }

  /** `Number.MAX_SAFE_INTEGER`, 2^53 - 1. */
  const MaxSafeInteger: int := 0x1F_FFFF_FFFF_FFFF

  /** `Joi.number().integer()`: `Joi.number()` refuses numbers outside the
      safe range unless `unsafe()` is given, which these schemas do not. */
  predicate IsInteger(v: Value) {
    v.Int? && -MaxSafeInteger <= v.n <= MaxSafeInteger
  }

  /** `createReminder.body`: `text` and `dateTime`, both required. */
  predicate ValidCreateReminderBody(body: Fields, isIsoDate: string -> bool) {
    && body.Keys <= {"text", "dateTime"}
    && "text" in body && IsJoiString(body["text"])
    && "dateTime" in body && IsIsoDateString(body["dateTime"], isIsoDate)
  }

  /** `getReminders.query`: optional `status`, `limit` and `page`. */
  predicate ValidGetRemindersQuery(query: Fields) {
    && query.Keys <= {"status", "limit", "page"}
    && ("status" in query ==> IsJoiString(query["status"]))
    && ("limit" in query ==> IsInteger(query["limit"]))
    && ("page" in query ==> IsInteger(query["page"]))
  }

  /** The `params` schema shared by `getReminderById`, `updateReminder` and
      `deleteReminder`: a required `reminderId`. */
  predicate ValidReminderIdParams(params: Fields) {
    params.Keys <= {"reminderId"} && "reminderId" in params && IsJoiString(params["reminderId"])
  }

  /** `updateReminder.body`: any of `text`, `dateTime`, `status`, at least one. */
  predicate ValidUpdateReminderBody(body: Fields, isIsoDate: string -> bool) {
    && body.Keys <= {"text", "dateTime", "status"}
    && |body| >= 1
    && ("text" in body ==> IsJoiString(body["text"]))
    && ("dateTime" in body ==> IsIsoDateString(body["dateTime"], isIsoDate))
    && ("status" in body ==> IsJoiString(body["status"]))
  }

  /** `updateReminder`: both its `params` and its `body` schema. */
  predicate ValidUpdateReminder(params: Fields, body: Fields, isIsoDate: string -> bool) {
    ValidReminderIdParams(params) && ValidUpdateReminderBody(body, isIsoDate)
  }

  /** A body with a non-empty `text` and a non-empty ISO date `dateTime` passes. */
  lemma CreateBodyAccepted(text: string, date: string, isIsoDate: string -> bool)
    requires text != "" && date != "" && isIsoDate(date)
    ensures ValidCreateReminderBody(map["text" := Str(text), "dateTime" := Str(date)], isIsoDate)
  {
    var m := map["text" := Str(text), "dateTime" := Str(date)];
    assert m.Keys == {"text", "dateTime"};
    assert m["text"] == Str(text) && m["dateTime"] == Str(date);
    assert IsJoiString(m["text"]) && IsIsoDateString(m["dateTime"], isIsoDate);
  }

  /** A create body passes exactly when it carries a non-empty `text`, a non-empty ISO
      date `dateTime` and nothing else. */
  lemma CreateBodyShape(body: Fields, isIsoDate: string -> bool)
    ensures ValidCreateReminderBody(body, isIsoDate) <==>
      exists text, date :: text != "" && date != "" && isIsoDate(date)
        && body == map["text" := Str(text), "dateTime" := Str(date)]
  {
    if ValidCreateReminderBody(body, isIsoDate) {
      var text, date := body["text"].s, body["dateTime"].s;
      var m := map["text" := Str(text), "dateTime" := Str(date)];
      assert body.Keys == m.Keys;
      assert text != "" && date != "" && isIsoDate(date) && body == m;
    }
    forall text, date | text != "" && date != "" && isIsoDate(date) && body == map["text" := Str(text), "dateTime" := Str(date)]
      ensures ValidCreateReminderBody(body, isIsoDate)
    {
      CreateBodyAccepted(text, date, isIsoDate);
    }
  }

  /** A query may carry only `status`, `limit` and `page`; a fractional,
      non-numeric or unsafe `limit` or `page` is refused, and the empty query
      passes. */
  lemma GetRemindersQueryShape(query: Fields)
    ensures ValidGetRemindersQuery(query) ==> query.Keys <= {"status", "limit", "page"}
    ensures ValidGetRemindersQuery(query) && "limit" in query ==>
      query["limit"].Int? && -MaxSafeInteger <= query["limit"].n <= MaxSafeInteger
    ensures ValidGetRemindersQuery(query) && "page" in query ==>
      query["page"].Int? && -MaxSafeInteger <= query["page"].n <= MaxSafeInteger
    ensures ValidGetRemindersQuery(map[])
  {
  }

  /** An integer `limit` passes exactly when it lies in the safe range:
      `?limit=9007199254740991` passes and `?limit=9007199254740992` fails. */
  lemma LimitSafeRange(n: int)
    ensures ValidGetRemindersQuery(map["limit" := Int(n)]) <==> -MaxSafeInteger <= n <= MaxSafeInteger
    ensures ValidGetRemindersQuery(map["limit" := Int(9007199254740991)])
    ensures !ValidGetRemindersQuery(map["limit" := Int(9007199254740992)])
  {
    assert map["limit" := Int(n)].Keys == {"limit"};
    assert map["limit" := Int(9007199254740991)].Keys == {"limit"};
  }

  /** Every path-parameter schema requires `reminderId`. */
  lemma ReminderIdRequired(params: Fields, body: Fields, isIsoDate: string -> bool)
    requires "reminderId" !in params
    ensures !ValidReminderIdParams(params)
    ensures !ValidUpdateReminder(params, body, isIsoDate)
  {
  }

  /** An update carries at least one of the three columns; in particular the
      empty update is refused before it reaches the service. */
  lemma UpdateCarriesAField(params: Fields, body: Fields, isIsoDate: string -> bool)
    ensures ValidUpdateReminder(params, body, isIsoDate) ==>
      "text" in body || "dateTime" in body || "status" in body
    ensures !ValidUpdateReminder(params, map[], isIsoDate)
  {
    if ValidUpdateReminder(params, body, isIsoDate) {
      assert body.Keys != {};
      var k :| k in body.Keys;
    }
  }

  /** `status` on update is any non-empty string: no enumeration is enforced. */
  lemma UpdateAcceptsAnyStatus(params: Fields, status: string, isIsoDate: string -> bool)
    requires ValidReminderIdParams(params) && status != ""
    ensures ValidUpdateReminder(params, map["status" := Str(status)], isIsoDate)
  {
    assert map["status" := Str(status)].Keys == {"status"};
  }
}
