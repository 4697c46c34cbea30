/** Slices that keep only their last entries: the repository appends to them and then trims them
    (services/order-service/cmd/main.go, lines 229-238; services/notification-service/cmd/main.go, lines 112-115). */
module Windows {

  /** The last n entries of s, or all of them. */
  function Last<T>(s: seq<T>, n: nat): seq<T> {
    if |s| > n then s[|s| - n..] else s
  }

  /** Trimming after every append loses nothing that trimming the whole history once would keep. */
  lemma LastAppend<T>(s: seq<T>, x: T, n: nat)
    ensures Last(Last(s, n) + [x], n) == Last(s + [x], n)
  {
  }

  /** What is kept are the newest entries, in their order: all of them, or n. */
  lemma LastAreNewest<T>(s: seq<T>, n: nat)
    ensures |Last(s, n)| == if |s| < n then |s| else n
    ensures exists older :: s == older + Last(s, n)
  {
    assert s == s[..|s| - |Last(s, n)|] + Last(s, n);
  }
}
