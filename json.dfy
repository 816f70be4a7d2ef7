/** The part of a decoded JSON document the bot's lookups can tell apart:
    strings, objects, and everything else (lists, numbers, booleans, null),
    which none of them can descend into. */
module JsonValue {
  datatype Json =
    | JStr(s: string)
    | JObj(fields: map<string, Json>)
    | JOther
}
