/**
 * `find_element_by_name` (lib/recipegen.py, lines 17-22): scan the
 * `elements` dict in insertion order and return the first id whose name
 * equals the target name once both are lower-cased.
 */
module NameLookup {
  import opened Optional
  import opened Dag
  import opened OrderedDict
  import opened GraphIndex

  function LowerChar(c: char): (l: char) {
    if 'A' <= c <= 'Z' then (c as int - 'A' as int + 'a' as int) as char else c
  }

  /**
   * `str.lower()`, on the ASCII letters: the result has the same length,
   * each of 'A'..'Z' becomes the matching letter of 'a'..'z', and every
   * other character is unchanged.
   */
  function Lower(s: string): (l: string)
    ensures |l| == |s|
    ensures forall i :: 0 <= i < |l| ==> !('A' <= l[i] <= 'Z')
    ensures forall i :: 0 <= i < |s| && 'A' <= s[i] <= 'Z' ==> l[i] as int == s[i] as int + ('a' as int - 'A' as int)
    ensures forall i :: 0 <= i < |s| && !('A' <= s[i] <= 'Z') ==> l[i] == s[i]
  {
    seq(|s|, i requires 0 <= i < |s| => LowerChar(s[i]))
  }

  predicate NameMatches(name: string, target: string) {
    Lower(name) == Lower(target)
  }

  /** The name of the `k`-th key of the dict matches the target. */
  predicate MatchesAt(elements: Dict<Id, ElementInfo>, target: string, k: nat)
    requires elements.Valid() && k < |elements.keys|
  {
    NameMatches(elements.entries[elements.keys[k]].name, target)
  }

  /** The first key at or after position `from` whose name matches. */
  function FirstMatchFrom(elements: Dict<Id, ElementInfo>, target: string, from: nat): (r: Option<Id>)
    requires elements.Valid() && from <= |elements.keys|
    ensures r.Some? ==> r.value in elements.entries && NameMatches(elements.entries[r.value].name, target)
    ensures r.Some? ==> exists k :: from <= k < |elements.keys| && elements.keys[k] == r.value
    decreases |elements.keys| - from
  {
    if from == |elements.keys| then None
    else if MatchesAt(elements, target, from) then Some(elements.keys[from])
    else FirstMatchFrom(elements, target, from + 1)
  }

  /** `find_element_by_name`: some element whose name matches, or `None`. */
  function FirstMatch(elements: Dict<Id, ElementInfo>, target: string): (r: Option<Id>)
    requires elements.Valid()
    ensures r.Some? ==> r.value in elements.entries && NameMatches(elements.entries[r.value].name, target)
  {
    FirstMatchFrom(elements, target, 0)
  }

  /**
   * The result is `None` exactly when no key from `from` on matches, and
   * otherwise the key at the least matching position.
   */
  lemma {:induction false} FirstMatchFromSpec(elements: Dict<Id, ElementInfo>, target: string, from: nat)
    requires elements.Valid() && from <= |elements.keys|
    ensures FirstMatchFrom(elements, target, from).None? <==>
            forall k :: from <= k < |elements.keys| ==> !MatchesAt(elements, target, k)
    ensures FirstMatchFrom(elements, target, from).Some? ==>
            exists k :: from <= k < |elements.keys| && elements.keys[k] == FirstMatchFrom(elements, target, from).value
                        && MatchesAt(elements, target, k)
                        && forall j :: from <= j < k ==> !MatchesAt(elements, target, j)
    decreases |elements.keys| - from
  {
    if from < |elements.keys| && !MatchesAt(elements, target, from) {
      FirstMatchFromSpec(elements, target, from + 1);
    }
  }

  /** Lines 17-22: the loop with its early return. */
  method FindElementByName(elements: Dict<Id, ElementInfo>, target: string) returns (r: Option<Id>)
    requires elements.Valid()
    ensures r == FirstMatch(elements, target)
  {
    var i := 0;
    while i < |elements.keys|
      invariant 0 <= i <= |elements.keys|
      invariant FirstMatchFrom(elements, target, i) == FirstMatch(elements, target)
    {
      var elemId := elements.keys[i];
      if Lower(elements.entries[elemId].name) == Lower(target) {
        return Some(elemId);
      }
      i := i + 1;
    }
    return None;
  }
}
