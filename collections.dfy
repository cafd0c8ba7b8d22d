/**
 * Username collections and the follow-back gap between two of them.
 * Scraped collections are sequences (they keep order and duplicates);
 * a gap is computed on their element sets, as `set(a) - set(b)`.
 */
module Collections {

  /** `set(s)`: the distinct usernames of a sequence. */
  function Elements(s: seq<string>): (e: set<string>)
    ensures forall x :: x in e <==> x in s
  {
    set x | x in s
  }

  /** A sequence that lists every username at most once, as `list(set(...))` does. */
  predicate NoDuplicates(s: seq<string>)
  {
    forall i, j :: 0 <= i < j < |s| ==> s[i] != s[j]
  }

  /** A list without duplicates has as many entries as distinct usernames. */
  lemma {:induction false} DistinctCardinality(s: seq<string>)
    requires NoDuplicates(s)
    ensures |Elements(s)| == |s|
  {
    if s != [] {
      var t := s[1..];
      assert NoDuplicates(t) by {
        forall i, j | 0 <= i < j < |t| ensures t[i] != t[j] {
          assert t[i] == s[i + 1] && t[j] == s[j + 1];
        }
      }
      DistinctCardinality(t);
      assert s[0] !in Elements(t) by {
        forall k | 0 <= k < |t| ensures t[k] != s[0] {
          assert t[k] == s[k + 1];
        }
      }
      assert Elements(s) == Elements(t) + {s[0]} by {
        assert s == [s[0]] + t;
      }
    }
  }

  /** `set(a) - set(b)`: the usernames that occur in `a` and nowhere in `b`. */
  function Difference(a: seq<string>, b: seq<string>): (d: set<string>)
    ensures forall x :: x in d <==> x in a && x !in b
  {
    Elements(a) - Elements(b)
  }

  /**
   * `list(s)` for a set `s`: a duplicate-free list of exactly the members of
   * `s`, in an order the caller cannot rely on (each step removes an
   * arbitrary remaining member).
   */
  method ListOfSet(s: set<string>) returns (r: seq<string>)
    ensures NoDuplicates(r)
    ensures Elements(r) == s
    ensures |r| == |s|
  {
    r := [];
    var rest := s;
    while rest != {}
      invariant NoDuplicates(r)
      invariant Elements(r) !! rest
      invariant Elements(r) + rest == s
      invariant |r| + |rest| == |s|
      decreases rest
    {
      var x :| x in rest;
      r := r + [x];
      rest := rest - {x};
    }
  }

  /** A user who follows back is never reported in the gap. */
  lemma DifferenceAvoidsSecond(a: seq<string>, b: seq<string>)
    ensures Difference(a, b) !! Elements(b)
    ensures Difference(a, b) <= Elements(a)
  {
  }

  /** The two gaps `a - b` and `b - a` never share a username. */
  lemma GapsDisjoint(a: seq<string>, b: seq<string>)
    ensures Difference(a, b) !! Difference(b, a)
  {
  }

  /**
   * Every username of `a` is either in the gap `a - b` or shared with `b`,
   * never both: the gap and the mutual part partition `set(a)`.
   */
  lemma GapPartition(a: seq<string>, b: seq<string>)
    ensures Elements(a) == Difference(a, b) + (Elements(a) * Elements(b))
    ensures Difference(a, b) !! (Elements(a) * Elements(b))
  {
  }

  /** When both sides contain the same usernames, in any order and multiplicity, both gaps are empty. */
  lemma SameUsersNoGaps(a: seq<string>, b: seq<string>)
    requires Elements(a) == Elements(b)
    ensures Difference(a, b) == {} && Difference(b, a) == {}
  {
    forall x | x in a ensures x in b {
      assert x in Elements(a);
    }
    forall x | x in b ensures x in a {
      assert x in Elements(b);
    }
  }

  /** Both gaps are empty only when both sides contain the same usernames. */
  lemma NoGapsSameUsers(a: seq<string>, b: seq<string>)
    requires Difference(a, b) == {} && Difference(b, a) == {}
    ensures Elements(a) == Elements(b)
  {
    forall x | x in Elements(a) ensures x in Elements(b) {
      assert x !in Difference(a, b);
    }
    forall x | x in Elements(b) ensures x in Elements(a) {
      assert x !in Difference(b, a);
    }
  }

  /** following = [a, b, c] and followers = [b, c, d] leave the gaps {a} and {d}. */
  lemma ExampleGaps()
    ensures Difference(["a", "b", "c"], ["b", "c", "d"]) == {"a"}
    ensures Difference(["b", "c", "d"], ["a", "b", "c"]) == {"d"}
  {
    var following: seq<string> := ["a", "b", "c"];
    var followers: seq<string> := ["b", "c", "d"];
    assert "a" in following && "a" !in followers;
    assert "d" in followers && "d" !in following;
  }
}
