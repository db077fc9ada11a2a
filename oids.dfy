/** The two string tests the walks use to decide whether a returned name is
    still inside the walked subtree. OIDs are compared as plain strings. */
module Oids {

  /** True when `sub` occurs in `s` starting at position `j`. */
  ghost predicate OccursAt(s: string, sub: string, j: int)
  {
    0 <= j && j + |sub| <= |s| && s[j..j + |sub|] == sub
  }

  /** The character position of the first occurrence of `sub` in `s`, or -1
      (Go's `strings.Index`, which counts bytes instead). */
  function Index(s: string, sub: string): (k: int)
    ensures -1 <= k <= |s|
    ensures k >= 0 ==> OccursAt(s, sub, k)
    ensures k >= 0 ==> forall j :: 0 <= j < k ==> !OccursAt(s, sub, j)
    ensures k == -1 ==> forall j :: !OccursAt(s, sub, j)
    decreases |s|
  {
    if |sub| > |s| then -1
    else if sub <= s then 0
    else
      var k := Index(s[1..], sub);
      assert forall j :: 1 <= j ==> (OccursAt(s, sub, j) <==> OccursAt(s[1..], sub, j - 1)) by {
        forall j | 1 <= j
          ensures OccursAt(s, sub, j) <==> OccursAt(s[1..], sub, j - 1)
        {
          if j + |sub| <= |s| {
            assert s[1..][j - 1..j - 1 + |sub|] == s[j..j + |sub|];
          }
        }
      }
      assert !OccursAt(s, sub, 0);
      if k == -1 then -1 else k + 1
  }

  /** The walk's membership test, `strings.Index(name, root) > -1`: the root
      occurs anywhere inside the name. */
  predicate Contains(name: string, root: string)
  {
    Index(name, root) > -1
  }

  /** The bulk walk's membership test, `strings.HasPrefix(name, root)`. */
  predicate HasPrefix(name: string, root: string)
  {
    root <= name
  }

  /** `Contains` holds exactly when the root occurs somewhere in the name. */
  lemma ContainsIff(name: string, root: string)
    ensures Contains(name, root) <==> exists j :: OccursAt(name, root, j)
  {
    if Contains(name, root) {
      assert OccursAt(name, root, Index(name, root));
    }
  }

  /** Every name the bulk walk keeps would also be kept by the sequential walk. */
  lemma PrefixContained(name: string, root: string)
    requires HasPrefix(name, root)
    ensures Contains(name, root) && Index(name, root) == 0
  {
  }

  /** The converse fails: a name may hold the root in its middle. */
  lemma ContainedNotPrefix()
    ensures Contains("2.1.3.6", "1.3") && !HasPrefix("2.1.3.6", "1.3")
  {
    assert OccursAt("2.1.3.6", "1.3", 2);
    assert "2.1.3.6"[0] != "1.3"[0];
  }

  /** Both tests are textual, so a sibling whose last arc merely starts with the
      root's last arc counts as inside the subtree: `1.3.6.1.2.1.10` is taken for
      a descendant of `1.3.6.1.2.1.1`. */
  lemma SiblingArcMatches()
    ensures HasPrefix("1.3.6.1.2.1.10", "1.3.6.1.2.1.1")
    ensures Contains("1.3.6.1.2.1.10", "1.3.6.1.2.1.1")
  {
    PrefixContained("1.3.6.1.2.1.10", "1.3.6.1.2.1.1");
  }
}
