/**
 * The per-slug tallies the category and author pages keep in a plain
 * dictionary (`Record<string, number>`), read with `counts[slug] || 0`.
 */
module Counting {

  /** `counts[key] || 0`: a missing key reads as zero. */
  function Lookup(counts: map<string, nat>, key: string): (n: nat)
    ensures key !in counts ==> n == 0
    ensures key in counts ==> n == counts[key]
  {
    if key in counts then counts[key] else 0
  }

  /**
   * `counts` tallies the multiset `bag`: each key reads as its multiplicity,
   * and exactly the keys that occur are present.
   */
  ghost predicate Tallies(counts: map<string, nat>, bag: multiset<string>)
  {
    forall key :: Lookup(counts, key) == bag[key] && (key in counts <==> bag[key] > 0)
  }

  /** `count === 1 ? 'article' : 'articles'`, printed after a count on both index pages. */
  function CountLabel(count: nat): (text: string)
    ensures text == "article" <==> count == 1
    ensures text == "article" || text == "articles"
  {
    if count == 1 then "article" else "articles"
  }

  /** `counts[key] = (counts[key] || 0) + 1`. */
  function Increment(counts: map<string, nat>, key: string): (r: map<string, nat>)
    ensures forall b :: Tallies(counts, b) ==> Tallies(r, b + multiset{key})
  {
    counts[key := Lookup(counts, key) + 1]
  }

  /** Some key of a non-empty dictionary. */
  ghost function AnyKey(counts: map<string, nat>): (key: string)
    requires counts != map[]
    ensures key in counts
  {
    assert counts.Keys != {} by {
      var k :| k in counts;
      assert k in counts.Keys;
    }
    var k :| k in counts.Keys; k
  }

  /** The sum of all values of the dictionary. */
  ghost function Total(counts: map<string, nat>): nat
    decreases |counts|
  {
    if counts == map[] then 0
    else
      var key := AnyKey(counts);
      assert |counts - {key}| < |counts| by {
        assert (counts - {key}).Keys == counts.Keys - {key};
      }
      counts[key] + Total(counts - {key})
  }

  /** `n` copies of `key`. */
  ghost function Copies(key: string, n: nat): (bag: multiset<string>)
    ensures |bag| == n && bag[key] == n
    ensures forall other :: other != key ==> bag[other] == 0
  {
    if n == 0 then multiset{} else Copies(key, n - 1) + multiset{key}
  }

  /** The values of a tally add up to the size of the multiset it tallies. */
  lemma {:induction false} TotalOfTally(counts: map<string, nat>, bag: multiset<string>)
    requires Tallies(counts, bag)
    ensures Total(counts) == |bag|
    decreases |counts|
  {
    if counts == map[] {
      assert forall key :: bag[key] == 0 by {
        forall key ensures bag[key] == 0 {
          assert Lookup(counts, key) == bag[key];
        }
      }
      assert bag == multiset{};
    } else {
      var key := AnyKey(counts);
      var rest := counts - {key};
      var restBag := bag[key := 0];
      assert (counts - {key}).Keys == counts.Keys - {key};
      forall other ensures Lookup(rest, other) == restBag[other] && (other in rest <==> restBag[other] > 0) {
        assert Lookup(counts, other) == bag[other];
      }
      TotalOfTally(rest, restBag);
      assert bag == restBag + Copies(key, bag[key]) by {
        forall other ensures bag[other] == (restBag + Copies(key, bag[key]))[other] {
        }
      }
      assert Lookup(counts, key) == bag[key];
    }
  }
}
