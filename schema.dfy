/**
 * The pieces of zod the form schemas use: length checks on strings, and
 * integer and range checks on numbers. Each failing check yields an issue on
 * the field's path, with the schema's own message or, where it gives none,
 * zod's default message.
 */
module Schema {
  import opened Wrappers
  import opened JsText

  /** What a check found. */
  datatype Check = TooSmall | TooBig | NotInteger | Custom

  /** One reported problem: the field, the kind of check, and the custom message if one was given. */
  datatype Issue = Issue(path: string, check: Check, message: Option<string>)

  /** The outcome of `safeParse`: the typed value, or every issue found. */
  datatype Parsed<T> = Ok(value: T) | Failed(issues: seq<Issue>)

  /** `.min(min, minMessage).max(max, maxMessage)` on a string, measured in UTF-16 units. */
  function LengthIssues(path: string, s: string, min: nat, minMessage: string, max: nat, maxMessage: string): (r: seq<Issue>)
    ensures r == [] <==> min <= JsLength(s) <= max
    ensures forall k | 0 <= k < |r| :: r[k].path == path && r[k].message.Some?
    ensures JsLength(s) < min ==> Issue(path, TooSmall, Some(minMessage)) in r
    ensures JsLength(s) > max ==> Issue(path, TooBig, Some(maxMessage)) in r
  {
    (if JsLength(s) < min then [Issue(path, TooSmall, Some(minMessage))] else [])
    + (if JsLength(s) > max then [Issue(path, TooBig, Some(maxMessage))] else [])
  }

  /** `Number.isInteger` on a finite number. */
  predicate IsInteger(v: real) {
    v == v.Floor as real
  }

  /** `.int(message)`, `.min(min, message)` and, when given, `.max(max, message)` on a number, in that order. */
  function NumberIssues(path: string, v: real, intMessage: Option<string>,
                        min: int, minMessage: Option<string>, max: Option<(int, Option<string>)>): (r: seq<Issue>)
    ensures r == [] <==> IsInteger(v) && v >= min as real && (max.Some? ==> v <= max.value.0 as real)
    ensures forall k | 0 <= k < |r| :: r[k].path == path
    ensures !IsInteger(v) ==> Issue(path, NotInteger, intMessage) in r
    ensures v < min as real ==> Issue(path, TooSmall, minMessage) in r
  {
    (if IsInteger(v) then [] else [Issue(path, NotInteger, intMessage)])
    + (if v >= min as real then [] else [Issue(path, TooSmall, minMessage)])
    + (match max
       case None => []
       case Some((m, message)) => if v <= m as real then [] else [Issue(path, TooBig, message)])
  }
}
