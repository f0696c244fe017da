/**
 * First-match prefix lookup over an ordered table, the search both
 * `Command.getCommand` and `CallBack.getAction` run over their enum's `values()`.
 */
module PrefixTable {

  /**
   * The index of the first prefix in `prefixes` that starts `s`,
   * or `|prefixes|` when none does (the loop falls through).
   */
  function FirstMatch(prefixes: seq<string>, s: string): (k: nat)
    ensures k <= |prefixes|
    ensures k < |prefixes| ==> prefixes[k] <= s
    ensures forall j :: 0 <= j < k ==> !(prefixes[j] <= s)
  {
    if prefixes == [] then 0
    else if prefixes[0] <= s then 0
    else 1 + FirstMatch(prefixes[1..], s)
  }

  /** Two prefixes of one string: the shorter is a prefix of the longer. */
  lemma PrefixesNest(a: string, b: string, s: string)
    requires a <= s && b <= s && |a| <= |b|
    ensures a <= b
  {
    assert a == s[..|a|] && b == s[..|b|];
    assert b[..|a|] == a;
  }
}
