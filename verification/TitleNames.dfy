/**
  The title-name cache of crosspresence/labels.go. Name never waits: it answers what it knows and at most starts a
  fetch in the background, which lands later.
 */
module TitleNames {
  import opened Ascii
  import opened Basics

  const HIT_TTL := 21600      // seconds: six hours
  const MISS_TTL := 600       // ten minutes

  function Ttl(name: string): int {
    if name == "" then MISS_TTL else HIT_TTL
  }

  function KeyOf(namespace: string, titleId: string): string {
    Lower(namespace) + "/" + Upper(titleId)
  }

  // --- what the cache is about, told by the fetches alone ---

  /** A fetch of a key starts, or lands with a name; None is a fetch that failed. */
  datatype Change = Started(key: string, at: int) | Landed(key: string, at: int, found: Option<string>)

  /** The fetches of `key` that have started and not landed. */
  ghost function Outstanding(h: seq<Change>, key: string): int {
    if h == [] then 0
    else
      var c := h[|h| - 1];
      Outstanding(h[..|h| - 1], key) + if c.key != key then 0 else if c.Started? then 1 else -1
  }

  /** The name the last successful fetch of `key` brought. */
  ghost function NameOf(h: seq<Change>, key: string): string {
    if h == [] then ""
    else
      var c := h[|h| - 1];
      if c.key == key && c.Landed? && c.found.Some? then c.found.value else NameOf(h[..|h| - 1], key)
  }

  ghost function LastLanding(h: seq<Change>, key: string): Option<int> {
    if h == [] then None
    else
      var c := h[|h| - 1];
      if c.key == key && c.Landed? then Some(c.at) else LastLanding(h[..|h| - 1], key)
  }

  /** When a lookup of `key` has to start a fetch. */
  ghost predicate Due(h: seq<Change>, key: string, now: int) {
    && Outstanding(h, key) == 0
    && match LastLanding(h, key)
       case None => true
       case Some(at) => now - at > Ttl(NameOf(h, key))
  }

  /** A fetch is due with none outstanding and the last answer over ten minutes old, or six hours if there is a name. */
  lemma DueIff(h: seq<Change>, key: string, now: int)
    ensures Due(h, key, now) <==>
      && Outstanding(h, key) == 0
      && (LastLanding(h, key).None? || now - LastLanding(h, key).value > (if NameOf(h, key) == "" then 600 else 21600))
  {
  }

  /** A key is that of a namespace and a title in whatever case; namespaces have no slash in them. */
  lemma KeysOf(namespace: string, titleId: string, namespace': string, titleId': string)
    requires '/' !in namespace && '/' !in namespace'
    ensures KeyOf(namespace, titleId) == KeyOf(namespace', titleId') <==>
      Lower(namespace) == Lower(namespace') && Upper(titleId) == Upper(titleId')
  {
    if KeyOf(namespace, titleId) == KeyOf(namespace', titleId') {
      var key, n, m := KeyOf(namespace, titleId), |namespace|, |namespace'|;
      assert key[n] == '/' && key[m] == '/';
      assert forall i :: 0 <= i < n ==> key[i] == Lower(namespace)[i] == ToLower(namespace[i]);
      assert forall i :: 0 <= i < m ==> key[i] == Lower(namespace')[i] == ToLower(namespace'[i]);
      assert n == m;
      assert key[..n] == Lower(namespace) == Lower(namespace') && key[n + 1..] == Upper(titleId) == Upper(titleId');
    }
  }

  ghost predicate Past(h: seq<Change>, now: int) {
    h != [] ==> h[|h| - 1].at <= now
  }

  /** Fetches start only when due and land only when outstanding, in the order of time. */
  ghost predicate Lawful(h: seq<Change>) {
    h != [] ==>
      var c, before := h[|h| - 1], h[..|h| - 1];
      && Lawful(before) && Past(before, c.at)
      && (if c.Started? then Due(before, c.key, c.at) else Outstanding(before, c.key) > 0)
  }

  /** The start times of the fetches of `key`. */
  ghost function Starts(h: seq<Change>, key: string): seq<int> {
    if h == [] then []
    else
      var c := h[|h| - 1];
      Starts(h[..|h| - 1], key) + if c.key == key && c.Started? then [c.at] else []
  }

  /** Never two fetches of one key at once. */
  lemma {:induction false} SingleFlight(h: seq<Change>, key: string)
    requires Lawful(h)
    ensures 0 <= Outstanding(h, key) <= 1
  {
    if h != [] { SingleFlight(h[..|h| - 1], key); }
  }

  /** A fetch of `key` that brought a name. */
  ghost predicate Brought(c: Change, key: string) {
    c.Landed? && c.key == key && c.found.Some?
  }

  /** The name is what the last successful fetch brought, whatever has failed since, and "" before there was one. */
  lemma {:induction false} NameIsLastSuccess(h: seq<Change>, key: string, name: string)
    ensures NameOf(h, key) == name <==>
      || (exists i :: 0 <= i < |h| && Brought(h[i], key) && h[i].found == Some(name)
            && forall j :: i < j < |h| ==> !Brought(h[j], key))
      || (name == "" && forall i :: 0 <= i < |h| ==> !Brought(h[i], key))
  {
    if h != [] {
      var n, before := |h| - 1, h[..|h| - 1];
      NameIsLastSuccess(before, key, name);
      assert forall i :: 0 <= i < n ==> before[i] == h[i];
      if !Brought(h[n], key) {
        if exists i :: 0 <= i < n && Brought(before[i], key) && before[i].found == Some(name)
            && forall j :: i < j < n ==> !Brought(before[j], key) {
          var i :| 0 <= i < n && Brought(before[i], key) && before[i].found == Some(name)
            && forall j :: i < j < n ==> !Brought(before[j], key);
          assert Brought(h[i], key) && forall j :: i < j < |h| ==> !Brought(h[j], key);
        }
      } else {
        assert Brought(h[n], key);
      }
    }
  }

  ghost predicate Spaced(s: seq<int>) {
    forall i :: 0 < i < |s| ==> s[i] - s[i - 1] > 600
  }

  lemma SpacedSnoc(s: seq<int>, t: int)
    requires Spaced(s) && (s != [] ==> t - s[|s| - 1] > 600)
    ensures Spaced(s + [t])
  {
  }

  /** The last start of `key` is over by `now`, and by the last landing if nothing is outstanding. */
  ghost predicate Settled(h: seq<Change>, key: string, now: int) {
    var s := Starts(h, key);
    if s == [] then Outstanding(h, key) == 0
    else
      && s[|s| - 1] <= now
      && (Outstanding(h, key) == 0 ==> LastLanding(h, key).Some? && s[|s| - 1] <= LastLanding(h, key).value)
  }

  lemma LawfulLast(h: seq<Change>, c: Change)
    requires Lawful(h + [c])
    ensures Lawful(h) && (if c.Started? then Due(h, c.key, c.at) else Outstanding(h, c.key) > 0)
  {
    assert (h + [c])[..|h|] == h;
  }

  lemma StartsNext(h: seq<Change>, c: Change, key: string)
    ensures Starts(h + [c], key) == Starts(h, key) + if c.key == key && c.Started? then [c.at] else []
    ensures Outstanding(h + [c], key) ==
      Outstanding(h, key) + if c.key != key then 0 else if c.Started? then 1 else -1
    ensures LastLanding(h + [c], key) == if c.key == key && c.Landed? then Some(c.at) else LastLanding(h, key)
  {
    assert (h + [c])[..|h|] == h;
  }

  lemma SettledNext(h: seq<Change>, c: Change, key: string)
    requires Lawful(h + [c]) && Settled(h, key, c.at) && Spaced(Starts(h, key))
    ensures Settled(h + [c], key, c.at) && Spaced(Starts(h + [c], key))
  {
    hide NameOf, Lawful, Spaced, Starts, Outstanding, LastLanding;
    LawfulLast(h, c);
    StartsNext(h, c, key);
    SingleFlight(h, key);
    if c.key == key && c.Started? {
      SpacedSnoc(Starts(h, key), c.at);
    } else {
      assert Starts(h + [c], key) == Starts(h, key);
    }
  }

  /** A fetch starts only after the one before it has landed and its answer has run out. */
  lemma {:induction false} StartsSpaced(h: seq<Change>, key: string, now: int)
    requires Lawful(h) && Past(h, now)
    ensures Spaced(Starts(h, key)) && Settled(h, key, now)
  {
    if h != [] {
      var c, before := h[|h| - 1], h[..|h| - 1];
      StartsSpaced(before, key, c.at);
      assert h == before + [c];
      SettledNext(before, c, key);
    }
  }

  lemma {:induction false} SpacedFar(s: seq<int>, i: nat, j: nat)
    requires Spaced(s) && i < j < |s|
    ensures (j - i) * 600 < s[j] - s[i]
  {
    if i + 1 < j { SpacedFar(s, i, j - 1); }
  }

  /** `k` fetches of one key, the first of them at second `start`, take more than (k - 1) * 10 minutes to be started. */
  lemma RateBound(h: seq<Change>, key: string, now: int, i: nat, k: nat)
    requires Lawful(h) && Past(h, now)
    requires k >= 2 && i + k <= |Starts(h, key)|
    ensures (k - 1) * 600 < Starts(h, key)[i + k - 1] - Starts(h, key)[i]
  {
    StartsSpaced(h, key, now);
    SpacedFar(Starts(h, key), i, i + k - 1);
  }

  // --- the cache ---

  datatype Entry = Entry(name: string, at: Option<int>, busy: bool)

  ghost function Told(h: seq<Change>, key: string): Entry {
    Entry(NameOf(h, key), LastLanding(h, key), Outstanding(h, key) == 1)
  }

  class Titles {
    var byKey: map<string, Entry>
    var now: int
    const canFetch: bool
    ghost var history: seq<Change>

    ghost predicate Valid()
      reads this
    {
      && Lawful(history) && Past(history, now)
      && forall key :: Told(history, key) == if key in byKey then byKey[key] else Entry("", None, false)
    }

    constructor (canFetch: bool, now: int)
      ensures Valid() && history == [] && this.canFetch == canFetch && this.now == now
    {
      this.canFetch, this.now, byKey, history := canFetch, now, map[], [];
    }

    method Wait(seconds: nat)
      requires Valid()
      modifies this`now
      ensures Valid() && now == old(now) + seconds
    {
      now := now + seconds;
    }

    /** TitleNames.Name: the last name known, at once; and a fetch is started exactly when one is due. */
    method Name(namespace: string, titleId: string) returns (name: string)
      requires Valid()
      modifies this`byKey, this`history
      ensures Valid()
      ensures titleId == "" ==> name == "" && history == old(history)
      ensures titleId != "" ==>
                var key := KeyOf(namespace, titleId);
                && name == NameOf(old(history), key)
                && history == old(history) + if canFetch && Due(old(history), key, now) then [Started(key, now)] else []
    {
      if titleId == "" { return ""; }
      var key := KeyOf(namespace, titleId);
      SingleFlight(history, key);
      assert Told(history, key) == if key in byKey then byKey[key] else Entry("", None, false);
      if key !in byKey { byKey := byKey[key := Entry("", None, false)]; }
      var e := byKey[key];
      if (e.at == None || now - e.at.value > Ttl(e.name)) && !e.busy && canFetch {
        byKey := byKey[key := e.(busy := true)];
        ToldNext(history, Started(key, now));
        history := history + [Started(key, now)];
      }
      name := e.name;
    }

    /** The fetch that was started for `key` returns. */
    method Land(key: string, found: Option<string>)
      requires Valid() && Outstanding(history, key) > 0
      modifies this`byKey, this`history
      ensures Valid() && history == old(history) + [Landed(key, now, found)] && Outstanding(history, key) == 0
      ensures NameOf(history, key) == if found.Some? then found.value else NameOf(old(history), key)
      ensures forall other :: other != key ==> NameOf(history, other) == NameOf(old(history), other)
    {
      SingleFlight(history, key);
      assert Told(history, key).busy;
      var e := byKey[key];
      byKey := byKey[key := Entry(if found.Some? then found.value else e.name, Some(now), false)];
      ToldNext(history, Landed(key, now, found));
      ghost var h := history;
      history := history + [Landed(key, now, found)];
      assert history[..|h|] == h;
      forall other | other != key ensures NameOf(history, other) == NameOf(h, other) {
        assert Told(history, other) == Told(h, other);
      }
    }
  }

  lemma ToldNext(h: seq<Change>, c: Change)
    requires Lawful(h + [c])
    ensures forall key :: key != c.key ==> Told(h + [c], key) == Told(h, key)
    ensures c.Started? ==> Told(h + [c], c.key) == Told(h, c.key).(busy := true)
    ensures c.Landed? ==>
              Told(h + [c], c.key) == Entry(if c.found.Some? then c.found.value else NameOf(h, c.key), Some(c.at), false)
  {
    assert (h + [c])[..|h|] == h;
    SingleFlight(h + [c], c.key);
    SingleFlight(h, c.key);
  }
}
