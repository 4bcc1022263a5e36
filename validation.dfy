/** The part of zod's behaviour the schemas here rely on: every failed check becomes an
    issue with a path and a message, all issues are collected, and `safeParse` fails
    exactly when there is at least one. */
module Validation {
  import opened Wrappers
  import opened JsonValues
  import Text

  datatype Issue = Issue(path: seq<string>, message: string)

  /** `${e.path.join('.')}: ${e.message}` */
  function DescribeIssue(e: Issue): string {
    Text.Join(e.path, ".") + ": " + e.message
  }

  /** `error.errors.map(...).join('; ')`, the text after "Validation error: ". */
  function DescribeIssues(issues: seq<Issue>): string {
    Text.Join(seq(|issues|, i requires 0 <= i < |issues| => DescribeIssue(issues[i])), "; ")
  }

  /** zod's invalid-type issue: "Required" when the value is missing. */
  function InvalidType(path: seq<string>, expected: string, v: Option<Json>): Issue {
    Issue(path, if v.None? then "Required" else "Expected " + expected + ", received " + TypeName(v))
  }
}
