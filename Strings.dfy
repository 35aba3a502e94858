/** Substring search on strings, as Python's `in` operator does it. */
module Strings {

  /** `needle in hay` for strings. */
  function Occurs(needle: string, hay: string): bool
    decreases |hay|
  {
    if |hay| < |needle| then false else hay[..|needle|] == needle || Occurs(needle, hay[1..])
  }

  /** A string occurs wherever it is placed. */
  lemma {:induction false} OccursInside(needle: string, pre: string, post: string)
    ensures Occurs(needle, pre + needle + post)
    decreases |pre|
  {
    var hay := pre + needle + post;
    if pre == [] {
      assert hay[..|needle|] == needle;
    } else {
      OccursInside(needle, pre[1..], post);
      assert hay[1..] == pre[1..] + needle + post;
    }
  }
}
