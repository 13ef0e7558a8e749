/** The account core's event log and the two ways it is read: pages and a stream. */
module EventLog {
  import opened Basics

  const PAGE_LIMIT: nat := 500

  datatype Event = Event(version: u64, kind: string, accountId: string, subjectId: string)

  /** The newest version the log holds; 0 for an empty log. */
  function Head(log: seq<Event>): u64 {
    if log == [] then 0 else log[|log| - 1].version
  }

  ghost predicate Before(log: seq<Event>, i: int, j: int) {
    0 <= i < j < |log| ==> log[i].version < log[j].version
  }

  /** Versions start above 0 and strictly increase, so `version` is a usable cursor. */
  ghost predicate Increasing(log: seq<Event>) {
    && (log != [] ==> 0 < log[0].version)
    && (forall i, j :: Before(log, i, j))
  }

  /** `n` splits the log into what is at or below `v` and what is above it. */
  ghost predicate SplitsAt(log: seq<Event>, v: u64, n: nat) {
    && n <= |log|
    && (n == 0 || log[n - 1].version <= v)
    && (n == |log| || v < log[n].version)
  }

  lemma {:induction false} SplitExists(log: seq<Event>, v: u64)
    ensures exists n :: SplitsAt(log, v, n)
  {
    if log == [] || Head(log) <= v {
      assert SplitsAt(log, v, |log|);
    } else {
      SplitExists(log[..|log| - 1], v);
      var n :| SplitsAt(log[..|log| - 1], v, n);
      assert SplitsAt(log, v, n);
    }
  }

  /** How many events of the log are at or below cursor `v`. */
  ghost function Seen(log: seq<Event>, v: u64): (n: nat)
    requires Increasing(log)
    ensures SplitsAt(log, v, n) && n <= |log|
  {
    SplitExists(log, v);
    var n :| SplitsAt(log, v, n);
    n
  }

  ghost function PageEnd(log: seq<Event>, since: u64): (end: nat)
    requires Increasing(log)
    ensures Seen(log, since) <= end <= |log|
  {
    var n := Seen(log, since);
    if |log| - n < PAGE_LIMIT then |log| else n + PAGE_LIMIT
  }

  /** One PollEvents answer: the first events above `since`, at most PAGE_LIMIT of them. */
  ghost function Page(log: seq<Event>, since: u64): seq<Event>
    requires Increasing(log)
  {
    log[Seen(log, since)..PageEnd(log, since)]
  }

  /** The split is unique. */
  lemma SeenIs(log: seq<Event>, v: u64, n: nat)
    requires Increasing(log) && SplitsAt(log, v, n)
    ensures Seen(log, v) == n
  {
    var m: int := Seen(log, v);
    assert Before(log, n, m - 1);
    assert Before(log, m, (n as int) - 1);
  }

  lemma SeenMonotone(log: seq<Event>, a: u64, b: u64)
    requires Increasing(log) && a <= b
    ensures Seen(log, a) <= Seen(log, b)
  {
    var n: int := Seen(log, a);
    assert Before(log, Seen(log, b), n - 1);
  }

  /** The rank of a log entry's own version. */
  lemma SeenAt(log: seq<Event>, k: nat)
    requires Increasing(log) && k < |log|
    ensures Seen(log, log[k].version) == k + 1
    ensures 0 < log[k].version <= Head(log)
  {
    assert Before(log, 0, k);
    assert Before(log, k, |log| - 1);
    assert Before(log, k, k + 1);
    SeenIs(log, log[k].version, k + 1);
  }

  /** A cursor is at or past the head exactly when it has nothing left to read. */
  lemma SeenAll(log: seq<Event>, v: u64)
    requires Increasing(log)
    ensures Seen(log, v) == |log| <==> Head(log) <= v
  {
    if Head(log) <= v {
      SeenIs(log, v, |log|);
    }
  }

  lemma IncreasingPrefix(log: seq<Event>, n: nat)
    requires Increasing(log) && n <= |log|
    ensures Increasing(log[..n])
  {
    forall i, j ensures Before(log[..n], i, j) {
      assert Before(log, i, j);
    }
  }

  /** Appending newer events never lowers the rank of a cursor, and keeps it once the log has reached the cursor. */
  lemma SeenGrows(log: seq<Event>, more: seq<Event>, v: u64)
    requires Increasing(log + more)
    ensures Increasing(log)
    ensures Head(log) <= Head(log + more)
    ensures Seen(log, v) <= Seen(log + more, v)
    ensures v <= Head(log) ==> Seen(log + more, v) == Seen(log, v)
  {
    var all := log + more;
    IncreasingPrefix(all, |log|);
    assert all[..|log|] == log;
    assert Before(all, |log| - 1, |all| - 1);
    assert Before(all, |log| - 1, |log|);
    var n: int, m: int := Seen(log, v), Seen(all, v);
    assert Before(all, m, n - 1);
    if v <= Head(log) {
      if n < |log| || more == [] || log == [] || v < all[|log|].version {
        SeenIs(all, v, n);
      }
    }
  }
}
