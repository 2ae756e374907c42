/**
 * The vocabulary the request schemas share: a request field as a schema
 * sees it, and the issues a schema reports when a field is rejected.
 * Issue wording belongs to the validation library and is kept abstract,
 * except where the schema supplies its own message.
 */
module Validation {

  /** A field of a request object: missing, a string, or a JSON value of another type. */
  datatype Field = Absent | Text(s: string) | NotText

  datatype IssueKind =
    | Required                  // the field is missing
    | InvalidType               // present, but not of the expected type
    | NotInteger                // a number that is not an integer
    | TooSmall(minimum: int)    // a string shorter than, or a number below, the minimum
    | TooBig(maximum: int)      // a string longer than, or a number above, the maximum
    | InvalidEmail              // the library's e-mail check failed
    | Mismatch(message: string) // a regex or a refinement failed; carries the schema's message

  /** One rejected field, named by its key in the request object. */
  datatype Issue = Issue(path: string, kind: IssueKind)

  /** The message the library uses for a failed regex when the schema gives none. */
  const DefaultMismatch: string := "Invalid"

  /** The issues of a field declared as a required string, before any further check. */
  function TypeIssues(path: string, f: Field): (r: seq<Issue>)
    ensures r == [] <==> f.Text?
    ensures f.Absent? ==> r == [Issue(path, Required)]
    ensures f.NotText? ==> r == [Issue(path, InvalidType)]
  {
    match f
    case Absent => [Issue(path, Required)]
    case NotText => [Issue(path, InvalidType)]
    case Text(_) => []
  }

  /**
   * The issues of a required string whose length must lie in
   * `minLen..maxLen`; every check runs, so a string can collect more
   * than one issue when the bounds leave no room.
   */
  function LengthIssues(path: string, f: Field, minLen: nat, maxLen: nat): (r: seq<Issue>)
    ensures r == [] <==> f.Text? && minLen <= |f.s| <= maxLen
    ensures f.Text? && |f.s| < minLen ==> Issue(path, TooSmall(minLen)) in r
    ensures f.Text? && |f.s| > maxLen ==> Issue(path, TooBig(maxLen)) in r
    ensures forall i :: 0 <= i < |r| ==> r[i].path == path
  {
    if !f.Text? then TypeIssues(path, f)
    else
      (if |f.s| < minLen then [Issue(path, TooSmall(minLen))] else [])
      + (if |f.s| > maxLen then [Issue(path, TooBig(maxLen))] else [])
  }
}
