/** How often something occurs in a sequence, and sizes of sets. */
module Counting {

  /** The number of entries of s that satisfy f. */
  function Tally<T>(s: seq<T>, f: T -> bool): nat {
    if s == [] then 0 else Tally(s[..|s| - 1], f) + (if f(s[|s| - 1]) then 1 else 0)
  }

  lemma TallyNext<T>(s: seq<T>, x: T, f: T -> bool)
    ensures Tally(s + [x], f) == Tally(s, f) + (if f(x) then 1 else 0)
  {
    assert (s + [x])[..|s|] == s;
  }

  function Occurrences(ids: seq<string>, id: string): nat {
    if ids == [] then 0 else Occurrences(ids[..|ids| - 1], id) + (if ids[|ids| - 1] == id then 1 else 0)
  }

  lemma OccurrencesNext(ids: seq<string>, x: string)
    ensures forall id :: Occurrences(ids + [x], id) == Occurrences(ids, id) + (if x == id then 1 else 0)
  {
    assert (ids + [x])[..|ids|] == ids;
  }

  ghost predicate NoDuplicates(ids: seq<string>) {
    forall i, j | 0 <= i < j < |ids| :: ids[i] != ids[j]
  }

  lemma {:induction false} InMeansOccurs(ids: seq<string>, id: string)
    ensures id in ids <==> Occurrences(ids, id) > 0
  {
    if ids == [] {
    } else {
      InMeansOccurs(ids[..|ids| - 1], id);
      assert ids == ids[..|ids| - 1] + [ids[|ids| - 1]];
    }
  }

  ghost predicate AtMostOnce(ids: seq<string>, id: string) {
    Occurrences(ids, id) <= 1
  }

  lemma {:induction false} DuplicatesOccurTwice(ids: seq<string>)
    ensures NoDuplicates(ids) <==> forall id :: AtMostOnce(ids, id)
  {
    if ids == [] {
    } else {
      var before, last := ids[..|ids| - 1], ids[|ids| - 1];
      DuplicatesOccurTwice(before);
      InMeansOccurs(before, last);
      assert NoDuplicates(ids) <==> NoDuplicates(before) && last !in before;
      if NoDuplicates(ids) {
        forall id
          ensures AtMostOnce(ids, id)
        {
          assert AtMostOnce(before, id);
        }
      } else if last in before {
        assert !AtMostOnce(ids, last);
      } else {
        var id :| !AtMostOnce(before, id);
        assert !AtMostOnce(ids, id);
      }
    }
  }

  lemma SubsetSize<T>(a: set<T>, b: set<T>)
    requires a <= b
    ensures |a| <= |b|
  {
    assert b == a + (b - a);
  }
}
