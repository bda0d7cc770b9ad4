/**
 * The `{{var_k}}` substitution shared by errorx.ErrorX.FormattedMessage and
 * localex's Translate: a flat argument list becomes a map by the successor
 * rule, and each map entry replaces its placeholder everywhere in the text.
 */
module Placeholders {

  /** The placeholder that stands for the argument named k. */
  function Placeholder(k: string): string {
    "{{var_" + k + "}}"
  }

  /** pat occurs in s at index i. */
  predicate OccursAt(s: string, pat: string, i: int) {
    0 <= i && i + |pat| <= |s| && s[i..i + |pat|] == pat
  }

  predicate Occurs(s: string, pat: string) {
    exists i | 0 <= i <= |s| - |pat| :: OccursAt(s, pat, i)
  }

  /**
   * strings.Replace(s, old, new, -1) for a non-empty old: scans left to
   * right and replaces every non-overlapping occurrence.
   */
  function ReplaceAll(s: string, pat: string, rep: string): string
    requires pat != []
    decreases |s|
  {
    if |s| < |pat| then s
    else if s[..|pat|] == pat then rep + ReplaceAll(s[|pat|..], pat, rep)
    else [s[0]] + ReplaceAll(s[1..], pat, rep)
  }

  /** A text without the pattern comes back unchanged. */
  lemma {:induction false} ReplaceAllAbsent(s: string, pat: string, rep: string)
    requires pat != []
    requires !Occurs(s, pat)
    ensures ReplaceAll(s, pat, rep) == s
    decreases |s|
  {
    if |s| >= |pat| {
      assert !OccursAt(s, pat, 0);
      forall i | OccursAt(s[1..], pat, i) ensures OccursAt(s, pat, i + 1) {
        assert s[i + 1..i + 1 + |pat|] == s[1..][i..i + |pat|];
      }
      ReplaceAllAbsent(s[1..], pat, rep);
    }
  }

  /** Replacing the pattern by itself changes nothing. */
  lemma {:induction false} ReplaceAllByItself(s: string, pat: string)
    requires pat != []
    ensures ReplaceAll(s, pat, pat) == s
    decreases |s|
  {
    if |s| >= |pat| {
      if s[..|pat|] == pat {
        ReplaceAllByItself(s[|pat|..], pat);
        assert s == s[..|pat|] + s[|pat|..];
      } else {
        ReplaceAllByItself(s[1..], pat);
        assert s == [s[0]] + s[1..];
      }
    }
  }

  /**
   * The map both formatters build from their argument list: each element is
   * the key of the element after it, a key "" is skipped, and a later pair
   * overwrites an earlier one with the same key.
   */
  function SuccessorMap(args: seq<string>): map<string, string> {
    if |args| < 2 then map[]
    else
      var m := SuccessorMap(args[..|args| - 1]);
      var k := args[|args| - 2];
      if k != "" then m[k := args[|args| - 1]] else m
  }

  /** Index i holds the last pair whose key is k. */
  predicate LastPairAt(args: seq<string>, k: string, i: int) {
    0 <= i < |args| - 1 && args[i] == k &&
    forall j :: i < j < |args| - 1 ==> args[j] != k
  }

  /**
   * The successor map holds exactly the non-empty keys that have a successor,
   * and each maps to the element after its last occurrence as a key.
   */
  lemma {:induction false} SuccessorMapEntries(args: seq<string>, k: string)
    ensures k in SuccessorMap(args) <==> k != "" && exists i :: 0 <= i < |args| - 1 && args[i] == k
    ensures k in SuccessorMap(args) ==>
              exists i :: LastPairAt(args, k, i) && SuccessorMap(args)[k] == args[i + 1]
  {
    if |args| >= 2 {
      var init := args[..|args| - 1];
      SuccessorMapEntries(init, k);
      var last := |args| - 2;
      if k == args[last] && k != "" {
        assert LastPairAt(args, k, last);
      } else {
        if k in SuccessorMap(args) {
          var i :| LastPairAt(init, k, i) && SuccessorMap(init)[k] == init[i + 1];
          assert LastPairAt(args, k, i);
        }
        forall i | 0 <= i < |args| - 1 && args[i] == k && k != "" ensures 0 <= i < |init| - 1 && init[i] == k {
        }
      }
    }
  }

  /** No entry of the successor map has the key "". */
  lemma SuccessorMapNoEmptyKey(args: seq<string>)
    ensures "" !in SuccessorMap(args)
  {
    SuccessorMapEntries(args, "");
  }

  /** `for k, v := range m { s = strings.Replace(s, "{{var_"+k+"}}", v, -1) }`, visiting keys in order. */
  function Substitute(s: string, m: map<string, string>, order: seq<string>): string
    requires forall k :: k in order ==> k in m
    decreases |order|
  {
    if order == [] then s
    else Substitute(ReplaceAll(s, Placeholder(order[0]), m[order[0]]), m, order[1..])
  }

  /** One key and its value: the placeholder of the key alone becomes the value. */
  lemma SinglePairSubstitution(k: string, v: string)
    requires k != ""
    ensures SuccessorMap([k, v]) == map[k := v]
    ensures Substitute(Placeholder(k), map[k := v], [k]) == v
  {
    assert [k, v][..1] == [k];
    var p := Placeholder(k);
    assert ReplaceAll(p, p, v) == v by {
      assert p[..|p|] == p && p[|p|..] == [];
    }
    assert [k][1..] == [];
  }

  /** The loop that fills the argument map: each element becomes the value of the key before it. */
  method BuildSuccessorMap(args: seq<string>) returns (m: map<string, string>)
    ensures m == SuccessorMap(args)
  {
    m := map[];
    var previousKey := "";
    var i := 0;
    while i < |args|
      invariant i <= |args| && m == SuccessorMap(args[..i])
      invariant previousKey == if i == 0 then "" else args[i - 1]
    {
      if previousKey != "" {
        m := m[previousKey := args[i]];
      }
      previousKey := args[i];
      assert args[..i + 1][..i] == args[..i];
      i := i + 1;
    }
    assert args[..i] == args;
  }

  /** The loop that rewrites the text once per map entry, visiting the keys in order. */
  method ReplaceEach(s: string, m: map<string, string>, order: seq<string>) returns (r: string)
    requires forall k :: k in order ==> k in m
    ensures r == Substitute(s, m, order)
  {
    r := s;
    var i := 0;
    while i < |order|
      invariant i <= |order|
      invariant Substitute(r, m, order[i..]) == Substitute(s, m, order)
    {
      assert order[i..][1..] == order[i + 1..];
      r := ReplaceAll(r, Placeholder(order[i]), m[order[i]]);
      i := i + 1;
    }
  }

  /** A text that mentions no placeholder of the visited keys is left as it is. */
  lemma {:induction false} SubstituteNoPlaceholders(s: string, m: map<string, string>, order: seq<string>)
    requires forall k :: k in order ==> k in m
    requires forall k :: k in order ==> !Occurs(s, Placeholder(k))
    ensures Substitute(s, m, order) == s
  {
    if order != [] {
      ReplaceAllAbsent(s, Placeholder(order[0]), m[order[0]]);
      SubstituteNoPlaceholders(s, m, order[1..]);
    }
  }
}
