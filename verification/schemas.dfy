/** The zod string checks the request schemas use. */
module Schemas {
  import opened Text

  /** The error code a tRPC procedure answers with when its input fails the
      zod schema. */
  const BadRequest: string := "BAD_REQUEST"

  /** `z.string().cuid()`: the pattern `/^c[^\s-]{8,}$/i`, a `c` or `C`
      followed by at least eight characters that are neither whitespace nor
      a hyphen. */
  predicate IsCuid(s: string) {
    && |s| >= 9
    && (s[0] == 'c' || s[0] == 'C')
    && forall i :: 1 <= i < |s| ==> !IsSpace(s[i]) && s[i] != '-'
  }

  /** `z.array(z.string().cuid()).optional()`. */
  predicate AllCuids(ids: seq<string>) {
    forall id :: id in ids ==> IsCuid(id)
  }

  /** `z.string().min(lo).max(hi)` on the length. */
  predicate LengthWithin(s: string, lo: nat, hi: nat) {
    lo <= |s| <= hi
  }
}
