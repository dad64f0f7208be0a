/**
 * The few PHP built-in behaviours the module relies on, stated on strings:
 * truthiness of a string (`!$s`, `empty($s)`) and
 * `explode` with a limit of 2.
 */
module Php {

  import opened Wrappers

  /** A string PHP treats as false: `!$s` and `empty($s)` hold exactly for "" and "0". */
  predicate Falsy(s: string) {
    s == "" || s == "0"
  }

  /** An id PHP treats as empty (`!$id`, `empty($id)`): null, modelled as `None`, or 0. */
  predicate EmptyId(id: Option<nat>) {
    id.None? || id.value == 0
  }

  /** A string PHP treats as true. */
  type TruthyString = s: string | !Falsy(s) witness "1"

  /**
   * The result of `explode($sep, $s, 2)` read back through `[$first, $second] = ...`:
   * the part before the first separator and, when there is a separator, everything after it.
   * With no separator `$second` is null.
   */
  datatype Halves = Halves(first: string, second: Option<string>)

  /** `[$first, $second] = explode(':', $s, 2)`: split at the first ':' only. */
  function ExplodeColon(s: string): (h: Halves)
    ensures h.second.None? <==> ':' !in s
    ensures h.second.None? ==> h.first == s
    ensures h.second.Some? ==> s == h.first + ":" + h.second.value
    ensures ':' !in h.first
  {
    if s == [] then Halves([], None)
    else if s[0] == ':' then Halves([], Some(s[1..]))
    else
      var rest := ExplodeColon(s[1..]);
      Halves([s[0]] + rest.first, rest.second)
  }

  /**
   * Splitting is undone by joining: whatever follows the first ':' is kept whole,
   * including any further ':' it contains.
   */
  lemma {:induction false} ExplodeColonOfJoin(first: string, second: string)
    requires ':' !in first
    ensures ExplodeColon(first + ":" + second) == Halves(first, Some(second))
  {
    if first != [] {
      assert (first + ":" + second)[1..] == first[1..] + ":" + second;
      ExplodeColonOfJoin(first[1..], second);
    } else {
      assert (first + ":" + second)[1..] == second;
    }
  }
}
