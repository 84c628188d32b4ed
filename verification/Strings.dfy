/** Strings put together from pieces. */
module Strings {
  /** `parts.join(separator)`. */
  function Join(parts: seq<string>, separator: string): string {
    if parts == [] then "" else if |parts| == 1 then parts[0] else parts[0] + separator + Join(parts[1..], separator)
  }

  /** Every piece stands between what the pieces before it and behind it join to. */
  lemma {:induction false} JoinAt(parts: seq<string>, separator: string, i: nat)
    requires i < |parts|
    ensures Join(parts, separator) ==
      (if i == 0 then "" else Join(parts[..i], separator) + separator) + parts[i] +
      (if i + 1 == |parts| then "" else separator + Join(parts[i + 1..], separator))
    decreases i
  {
    if i > 0 {
      JoinAt(parts[1..], separator, i - 1);
      assert parts[1..][..i - 1] == parts[..i][1..] && parts[1..][i..] == parts[i + 1..];
    }
  }
}
