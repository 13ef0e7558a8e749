/**
  The resolution cache of coregraph/coregraph.go (fwd for AccountOfPID, rev for PIDOfAccount). A lookup holds the lock
  while it reads the cache and again while it stores the resolver's answer, but not in between, so lookups interleave:
  Begin is the part before the call to the resolver, Finish the part after it.
 */
module ResolutionCache {
  import opened Basics

  const CACHE_TTL := 300      // seconds
  const NEGATIVE_TTL := 30

  // --- keys ---

  function Digits(n: nat): (s: string) {
    if n < 10 then [('0' as int + n) as char] else Digits(n / 10) + [('0' as int + n % 10) as char]
  }

  function Key(namespace: string, subject: string): string {
    namespace + "|" + subject
  }

  /** A number is read back from its digits. */
  function Number(s: string): int {
    if s == [] then 0 else Number(s[..|s| - 1]) * 10 + (s[|s| - 1] as int - '0' as int)
  }

  lemma {:induction false} DigitsRead(n: nat)
    ensures Number(Digits(n)) == n && '|' !in Digits(n)
  {
    if n >= 10 {
      DigitsRead(n / 10);
      var last := ('0' as int + n % 10) as char;
      assert Digits(n)[..|Digits(n)| - 1] == Digits(n / 10);
      assert Digits(n)[|Digits(n)| - 1] == last && last != '|';
    }
  }

  /** A pair whose key is its own among pairs of its kind: PIDs are free of the separator, and else the namespace has to be. */
  predicate Legal(plainSubjects: bool, ns: string, s: string) {
    if plainSubjects then '|' !in s else '|' !in ns
  }

  lemma SharedKey(ns: string, s: string, ns': string, s': string)
    requires Key(ns, s) == Key(ns', s') && |ns| < |ns'|
    ensures '|' in ns' && '|' in s
  {
    var k := Key(ns, s);
    assert ns'[|ns|] == k[|ns|] == '|';
    assert s[|ns'| - |ns| - 1] == k[|ns'|] == '|';
  }

  lemma KeyInjective(plainSubjects: bool, ns: string, s: string, ns': string, s': string)
    requires Key(ns, s) == Key(ns', s')
    requires Legal(plainSubjects, ns, s) && Legal(plainSubjects, ns', s')
    ensures ns == ns' && s == s'
  {
    if |ns| < |ns'| {
      SharedKey(ns, s, ns', s');
    } else if |ns'| < |ns| {
      SharedKey(ns', s', ns, s);
    } else {
      var k := Key(ns, s);
      assert ns == k[..|ns|] == ns' && s == k[|ns| + 1..] == s';
    }
  }

  /** No two (namespace, PID) pairs share a key, whatever the namespaces are. */
  lemma PidKeyInjective(ns: string, p: u32, ns': string, p': u32)
    requires Key(ns, Digits(p)) == Key(ns', Digits(p'))
    ensures ns == ns' && p == p'
  {
    DigitsRead(p);
    DigitsRead(p');
    KeyInjective(true, ns, Digits(p), ns', Digits(p'));
  }

  /** A namespace with the separator in it can share the key of another account's entry. */
  lemma AccountKeysCollide(ns: string, middle: string, account: string)
    ensures Key(ns + "|" + middle, account) == Key(ns, middle + "|" + account)
    ensures ns + "|" + middle != ns
  {
    assert Key(ns + "|" + middle, account) == Key(ns, middle + "|" + account);
    assert |ns + "|" + middle| > |ns|;
  }

  /** Another pair has the same key. */
  ghost predicate Shares(ns: string, s: string, ns': string, s': string) {
    Key(ns, s) == Key(ns', s') && (ns != ns' || s != s')
  }

  /** A pair shares its key with some other pair if and only if there is a separator in its namespace or its subject. */
  lemma KeySharedIff(ns: string, s: string)
    ensures (exists ns', s' :: Shares(ns, s, ns', s')) <==> '|' in ns || '|' in s
  {
    if '|' in s {
      var i :| 0 <= i < |s| && s[i] == '|';
      assert s == s[..i] + "|" + s[i + 1..];
      AccountKeysCollide(ns, s[..i], s[i + 1..]);
      assert Shares(ns, s, ns + "|" + s[..i], s[i + 1..]);
    } else if '|' in ns {
      var i :| 0 <= i < |ns| && ns[i] == '|';
      assert ns == ns[..i] + "|" + ns[i + 1..];
      AccountKeysCollide(ns[..i], ns[i + 1..], s);
      assert Shares(ns, s, ns[..i], ns[i + 1..] + "|" + s);
    } else {
      forall ns', s' ensures !Shares(ns, s, ns', s') {
        if Shares(ns, s, ns', s') { OwnKey(ns, s, ns', s'); }
      }
    }
  }

  lemma OwnKey(ns: string, s: string, ns': string, s': string)
    requires '|' !in ns && '|' !in s && Key(ns, s) == Key(ns', s')
    ensures ns == ns' && s == s'
  {
    if |ns| < |ns'| {
      SharedKey(ns, s, ns', s');
    } else if |ns'| < |ns| {
      SharedKey(ns', s', ns, s);
    } else {
      var k := Key(ns, s);
      assert ns == k[..|ns|] == ns' && s == k[|ns| + 1..] == s';
    }
  }

  // --- what the resolver said ---

  /** The resolver's answer for a pair, stored at second `at`; None is "not found". */
  datatype Answer<V> = Answer(namespace: string, subject: string, found: Option<V>, at: int)

  /** What a lookup tells its caller, or Miss when it has to ask. */
  datatype Hit<V> = Miss | Known(value: V) | Unknown

  function Ttl<V>(found: Option<V>): int {
    if found.Some? then CACHE_TTL else NEGATIVE_TTL
  }

  function Tell<V>(found: Option<V>): Hit<V> {
    if found.Some? then Known(found.value) else Unknown
  }

  function KeyOf<V>(a: Answer<V>): string {
    Key(a.namespace, a.subject)
  }

  /** The last answer stored under a key. */
  ghost function Latest<V>(log: seq<Answer<V>>, key: string): Option<Answer<V>> {
    if log == [] then None
    else
      var a := log[|log| - 1];
      if KeyOf(a) == key then Some(a) else Latest(log[..|log| - 1], key)
  }

  /** The lookup as specified: the last answer under its key, while that lasts. */
  ghost function Cached<V>(log: seq<Answer<V>>, now: int, key: string): Hit<V> {
    match Latest(log, key)
    case None => Miss
    case Some(a) => if now < a.at + Ttl(a.found) then Tell(a.found) else Miss
  }

  /** `hit` at second `t` is an answer the resolver gave, still within its time, for a pair with this key. */
  ghost predicate Backs<V>(a: Answer<V>, key: string, hit: Hit<V>, t: int) {
    KeyOf(a) == key && hit == Tell(a.found) && 0 <= t - a.at < (if hit.Known? then 300 else 30)
  }

  ghost predicate Backed<V>(log: seq<Answer<V>>, key: string, hit: Hit<V>, t: int) {
    exists i :: 0 <= i < |log| && Backs(log[i], key, hit, t)
  }

  ghost predicate Past<V>(log: seq<Answer<V>>, now: int) {
    forall i :: 0 <= i < |log| ==> log[i].at <= now
  }

  lemma {:induction false} LatestIn<V>(log: seq<Answer<V>>, key: string)
    ensures Latest(log, key).Some? ==> Latest(log, key).value in log && KeyOf(Latest(log, key).value) == key
  {
    if log != [] { LatestIn(log[..|log| - 1], key); }
  }

  /** A cached answer was given by the resolver, and at most its lifetime ago. */
  lemma CachedIsBacked<V>(log: seq<Answer<V>>, now: int, key: string)
    requires Past(log, now) && Cached(log, now, key) != Miss
    ensures Backed(log, key, Cached(log, now, key), now)
  {
    LatestIn(log, key);
    var a := Latest(log, key).value;
    var i :| 0 <= i < |log| && log[i] == a;
    assert Backs(log[i], key, Cached(log, now, key), now);
  }

  /** And it is what a lookup answers exactly that long: 5 minutes if something was found, else 30 seconds. */
  lemma CachedUntil<V>(log: seq<Answer<V>>, now: int, key: string)
    requires Latest(log, key).Some?
    ensures
      var a := Latest(log, key).value;
      Cached(log, now, key) == if now < a.at + (if a.found.Some? then 300 else 30) then Tell(a.found) else Miss
  {
  }

  /** The last answer stored for a pair. */
  ghost function LatestOf<V>(log: seq<Answer<V>>, ns: string, s: string): Option<Answer<V>> {
    if log == [] then None
    else
      var a := log[|log| - 1];
      if a.namespace == ns && a.subject == s then Some(a) else LatestOf(log[..|log| - 1], ns, s)
  }

  /** Nobody else has been asked about under the pair's key. */
  ghost predicate Alone<V>(log: seq<Answer<V>>, ns: string, s: string) {
    forall i :: 0 <= i < |log| && KeyOf(log[i]) == Key(ns, s) ==> log[i].namespace == ns && log[i].subject == s
  }

  /** Unless another pair with the same key has been asked about, a pair gets its own last answer. */
  lemma {:induction false} OwnAnswer<V>(log: seq<Answer<V>>, ns: string, s: string)
    requires Alone(log, ns, s)
    ensures Latest(log, Key(ns, s)) == LatestOf(log, ns, s)
  {
    if log != [] {
      var before := log[..|log| - 1];
      assert forall i :: 0 <= i < |before| ==> before[i] == log[i];
      OwnAnswer(before, ns, s);
    }
  }

  /** Which no two PIDs, and no two accounts in namespaces free of the separator, can do to each other. */
  lemma LegalIsAlone<V>(plainSubjects: bool, log: seq<Answer<V>>, ns: string, s: string)
    requires Legal(plainSubjects, ns, s)
    requires forall i :: 0 <= i < |log| ==> Legal(plainSubjects, log[i].namespace, log[i].subject)
    ensures Alone(log, ns, s)
  {
    forall i | 0 <= i < |log| && KeyOf(log[i]) == Key(ns, s) ensures log[i].namespace == ns && log[i].subject == s {
      KeyInjective(plainSubjects, log[i].namespace, log[i].subject, ns, s);
    }
  }

  /** Where two pairs share a key, one is given the answer for the other. */
  lemma SharedKeyMixesUp<V>(ns: string, s: string, ns': string, s': string, v: V, now: int)
    requires Key(ns, s) == Key(ns', s') && (ns != ns' || s != s')
    ensures
      var log := [Answer(ns, s, Some(v), now)];
      LatestOf(log, ns', s') == None && Cached(log, now, Key(ns', s')) == Known(v)
  {
    hide Key;
    var log := [Answer(ns, s, Some(v), now)];
    assert log[..0] == [];
    assert Latest(log, Key(ns', s')) == Some(log[0]);
  }

  /** The answer for one pair is given to another. */
  ghost predicate MixedUp<V>(ns: string, s: string, ns': string, s': string, v: V, now: int) {
    var log := [Answer(ns', s', Some(v), now)];
    LatestOf(log, ns, s) == None && Cached(log, now, Key(ns, s)) == Known(v)
  }

  /** A pair can be given the answer for another one if and only if it has a separator in its namespace or its subject. */
  lemma MixedUpIff<V>(ns: string, s: string, v: V, now: int)
    ensures (exists ns', s' :: MixedUp(ns, s, ns', s', v, now)) <==> '|' in ns || '|' in s
  {
    KeySharedIff(ns, s);
    if '|' in ns || '|' in s {
      var ns', s' :| Shares(ns, s, ns', s');
      SharedKeyMixesUp(ns', s', ns, s, v, now);
      assert MixedUp(ns, s, ns', s', v, now);
    } else {
      forall ns', s' ensures !MixedUp(ns, s, ns', s', v, now) {
        var log := [Answer(ns', s', Some(v), now)];
        assert log[..|log| - 1] == [];
        LatestIn(log, Key(ns, s));
        assert !Shares(ns, s, ns', s');
      }
    }
  }

  // --- the cache ---

  datatype Entry<V> = Entry(value: Option<V>, exp: int)

  datatype Reply<V> = Found(value: V) | NotFound | Failed

  /** A lookup's answer as its caller saw it. */
  datatype Served<V> = Served(namespace: string, subject: string, hit: Hit<V>, at: int)

  class Cache<V(==)> {
    var entries: map<string, Entry<V>>
    var now: int
    ghost var log: seq<Answer<V>>      // what the resolver answered, in the order it was stored
    ghost var served: seq<Served<V>>   // what the lookups answered

    ghost predicate Valid()
      reads this
    {
      Past(log, now) && AllHold(entries, log) && AllBacked(log, served)
    }

    constructor (now: int)
      ensures Valid() && entries == map[] && log == [] && served == [] && this.now == now
    {
      entries, this.now, log, served := map[], now, [], [];
    }

    method Wait(seconds: nat)
      requires Valid()
      modifies this`now
      ensures Valid() && now == old(now) + seconds
    {
      now := now + seconds;
    }

    /** The first half of a lookup: answer from the cache, or Miss. */
    method Begin(ns: string, s: string) returns (hit: Hit<V>)
      requires Valid()
      modifies this`served
      ensures Valid() && hit == Cached(log, now, Key(ns, s))
      ensures served == old(served) + if hit == Miss then [] else [Served(ns, s, hit, now)]
    {
      var key := Key(ns, s);
      assert Holds(entries, log, key);
      if key in entries && now < entries[key].exp {
        hit := Tell(entries[key].value);
        CachedIsBacked(log, now, key);
        served := served + [Served(ns, s, hit, now)];
      } else {
        hit := Miss;
      }
    }

    /** The second half: the resolver has replied. An error changes nothing. */
    method Finish(ns: string, s: string, reply: Reply<V>) returns (hit: Hit<V>)
      requires Valid()
      modifies this`entries, this`log, this`served
      ensures Valid()
      ensures reply.Failed? ==> hit == Miss && entries == old(entries) && log == old(log) && served == old(served)
      ensures !reply.Failed? ==>
                && hit == (if reply.Found? then Known(reply.value) else Unknown)
                && log == old(log) + [Answer(ns, s, if reply.Found? then Some(reply.value) else None, now)]
                && served == old(served) + [Served(ns, s, hit, now)]
                && Cached(log, now, Key(ns, s)) == hit
    {
      hide Holds, AllHold, AllBacked;
      if reply.Failed? { return Miss; }
      var found := if reply.Found? then Some(reply.value) else None;
      hit := Tell(found);
      Stored(entries, log, now, ns, s, found);
      ServedOn(log, Answer(ns, s, found, now), served);
      entries := entries[Key(ns, s) := Entry(found, now + Ttl(found))];
      log := log + [Answer(ns, s, found, now)];
      served := served + [Served(ns, s, hit, now)];
    }
  }

  /** What is stored under a key is its last answer. */
  ghost predicate Holds<V>(entries: map<string, Entry<V>>, log: seq<Answer<V>>, key: string) {
    match Latest(log, key)
    case None => key !in entries
    case Some(a) => key in entries && entries[key] == Entry(a.found, a.at + Ttl(a.found))
  }

  ghost predicate AllHold<V>(entries: map<string, Entry<V>>, log: seq<Answer<V>>) {
    forall key :: Holds(entries, log, key)
  }

  /** Every answer a lookup gave is backed by the resolver. */
  ghost predicate AllBacked<V>(log: seq<Answer<V>>, served: seq<Served<V>>) {
    forall i :: 0 <= i < |served| ==>
      Backed(log, Key(served[i].namespace, served[i].subject), served[i].hit, served[i].at)
  }

  lemma BackedGrows<V>(log: seq<Answer<V>>, a: Answer<V>, key: string, hit: Hit<V>, t: int)
    requires Backed(log, key, hit, t)
    ensures Backed(log + [a], key, hit, t)
  {
    var i :| 0 <= i < |log| && Backs(log[i], key, hit, t);
    assert Backs((log + [a])[i], key, hit, t);
  }

  lemma ServedOn<V>(log: seq<Answer<V>>, a: Answer<V>, served: seq<Served<V>>)
    requires AllBacked(log, served)
    ensures AllBacked(log + [a], served + [Served(a.namespace, a.subject, Tell(a.found), a.at)])
  {
    var served' := served + [Served(a.namespace, a.subject, Tell(a.found), a.at)];
    forall i | 0 <= i < |served'|
      ensures Backed(log + [a], Key(served'[i].namespace, served'[i].subject), served'[i].hit, served'[i].at)
    {
      if i < |served| {
        BackedGrows(log, a, Key(served[i].namespace, served[i].subject), served[i].hit, served[i].at);
      } else {
        assert Backs((log + [a])[|log|], KeyOf(a), Tell(a.found), a.at);
      }
    }
  }

  /** Storing one answer leaves what is stored under other keys alone. */
  lemma Stored<V>(entries: map<string, Entry<V>>, log: seq<Answer<V>>, now: int, ns: string, s: string, found: Option<V>)
    requires AllHold(entries, log)
    ensures AllHold(entries[Key(ns, s) := Entry(found, now + Ttl(found))], log + [Answer(ns, s, found, now)])
    ensures Cached(log + [Answer(ns, s, found, now)], now, Key(ns, s)) == Tell(found)
  {
    var log' := log + [Answer(ns, s, found, now)];
    var entries' := entries[Key(ns, s) := Entry(found, now + Ttl(found))];
    assert log'[..|log'| - 1] == log;
    forall key ensures Holds(entries', log', key) {
      assert Holds(entries, log, key);
    }
  }

  /**
    Bounded staleness: for any interleaving of lookups and replies, an answer a lookup gave for a pair was given by the
    resolver for that very pair, less than 5 minutes before if found and less than 30 seconds before if not, unless
    another pair with the same key has been asked about.
   */
  lemma ServedIsOwn<V>(log: seq<Answer<V>>, served: seq<Served<V>>, i: nat)
    requires AllBacked(log, served) && i < |served| && Alone(log, served[i].namespace, served[i].subject)
    ensures exists a :: a in log && a.namespace == served[i].namespace && a.subject == served[i].subject
              && served[i].hit == Tell(a.found) && a.at <= served[i].at < a.at + (if a.found.Some? then 300 else 30)
  {
    var k :| 0 <= k < |log| && Backs(log[k], Key(served[i].namespace, served[i].subject), served[i].hit, served[i].at);
    assert log[k] in log;
  }
}
