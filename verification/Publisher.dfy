/**
  crosspresence/publisher.go: one leased core session per connected person, kept in step with what they play by
  register, heartbeat, replace and expire, any of which may fail.
 */
module Publisher {
  import opened Basics

  const LEASE: nat := 45            // seconds

  type SessionId = nat

  /** An entry of the map of connected users: who it is, and what they play, from where. */
  datatype Online = Online(pid: u32, namespace: string, titleId: string, client: string, os: string)

  datatype Published = Published(
    sessionId: SessionId, accountId: string, namespace: string, title: string, client: string, os: string)

  /** What RegisterSession sends. */
  datatype Request = Request(
    accountId: string, namespace: string, titleId: string, endpoint: u32, leaseSeconds: nat, client: string, os: string)

  predicate Unchanged(p: Published, o: Online) {
    p.namespace == o.namespace && p.title == o.titleId && p.client == o.client && p.os == o.os
  }

  function RequestOf(p: Published, pid: u32): Request {
    Request(p.accountId, p.namespace, p.title, pid, LEASE, p.client, p.os)
  }

  /**
    The core's session registry. Every registration returns a new id, as the code's own stand-in for the core does; a
    registry that hands the id of an existing session out again is not this one. A call that fails may still have taken
    effect there, a session lapses when its lease ends, and a restart loses any of them. The rest is history: every session
    a caller was told of, as registered, and when its lease last started; when each session was registered whose caller
    got an error; the sessions a heartbeat of which failed; and those the core was asked to end.
   */
  class Registry {
    var now: nat
    var next: SessionId                      // no id at or above it has been issued
    var expires: map<SessionId, nat>         // sessions still listed, with the end of their lease
    var orphans: map<SessionId, nat>         // the same for sessions whose caller got an error instead of the id
    ghost var requests: map<SessionId, Request>
    ghost var renewed: map<SessionId, nat>
    ghost var orphaned: map<SessionId, nat>
    ghost var unanswered: set<SessionId>
    ghost var asked: set<SessionId>
    ghost var registerErrors: multiset<u32>  // the endpoints of registrations that failed

    ghost predicate SessionsOk() reads this`requests, this`renewed, this`expires, this`next, this`now {
      && renewed.Keys == requests.Keys
      && (forall id :: id in renewed ==> id < next && renewed[id] <= now)
      && (forall id :: id in expires ==> id in renewed && expires[id] == renewed[id] + LEASE)
    }

    ghost predicate OrphansOk() reads this`requests, this`orphans, this`orphaned, this`next, this`now {
      && (forall id :: id in orphans ==> id in orphaned && orphans[id] == orphaned[id] + LEASE)
      && (forall id :: id in orphaned ==> id < next && id !in requests && orphaned[id] <= now)
    }

    ghost predicate Valid()
      reads this`requests, this`renewed, this`expires, this`orphans, this`orphaned, this`next, this`now
    {
      SessionsOk() && OrphansOk()
    }

    constructor ()
      ensures Valid() && requests == map[] && expires == map[] && registerErrors == multiset{}
      ensures unanswered == asked == {}
    {
      now, next, expires, orphans := 0, 0, map[], map[];
      requests, renewed, orphaned, registerErrors := map[], map[], map[], multiset{};
      unanswered, asked := {}, {};
    }

    method Elapse()
      requires Valid()
      modifies this`now
      ensures Valid() && old(now) <= now
    {
      var t: int := *;
      if now <= t {
        now := t;
      }
    }

    /** A restart, or anything else that makes the core forget sessions. */
    method Lose()
      requires Valid()
      modifies this`expires, this`orphans
      ensures Valid() && expires.Keys <= old(expires.Keys) && orphans.Keys <= old(orphans.Keys)
    {
      var lost: set<SessionId> := *;
      expires, orphans := expires - lost, orphans - lost;
    }

    /** Succeeds only on a session still listed, whose lease then starts again. */
    method Heartbeat(id: SessionId) returns (ok: bool)
      requires Valid()
      modifies this`now, this`expires, this`renewed, this`unanswered
      ensures Valid() && old(now) <= now
      ensures unanswered == old(unanswered) + if ok then {} else {id}
      ensures
        || (!ok && expires == old(expires) && renewed == old(renewed))
        || (id in old(expires) && now < old(expires)[id]
            && expires == old(expires)[id := now + LEASE] && renewed == old(renewed)[id := now])
    {
      hide SessionsOk, OrphansOk;
      var answers: bool, arrives: bool := *, *;
      Elapse();
      ok := false;
      if arrives && id in expires && now < expires[id] {
        ok := answers;
        Prolong(id);
      }
      if !ok {
        unanswered := unanswered + {id};
      }
    }

    /** The lease of a listed session starts again. */
    method Prolong(id: SessionId)
      requires Valid() && id in expires
      modifies this`expires, this`renewed
      ensures Valid() && expires == old(expires)[id := now + LEASE] && renewed == old(renewed)[id := now]
    {
      expires := expires[id := now + LEASE];
      renewed := renewed[id := now];
    }

    method RegisterSession(r: Request) returns (id: Option<SessionId>)
      requires Valid() && r.leaseSeconds == LEASE
      modifies this
      ensures Valid() && old(now) <= now && unanswered == old(unanswered) && asked == old(asked)
      ensures id.None? ==>
        && registerErrors == old(registerErrors) + multiset{r.endpoint}
        && requests == old(requests) && expires == old(expires) && renewed == old(renewed)
        && (orphaned == old(orphaned) || (old(next) !in old(orphaned) && orphaned == old(orphaned)[old(next) := now]))
      ensures id.Some? ==>
        && registerErrors == old(registerErrors) && orphaned == old(orphaned)
        && id.value !in old(requests)
        && requests == old(requests)[id.value := r]
        && renewed == old(renewed)[id.value := now]
        && expires == old(expires)[id.value := now + LEASE]
    {
      hide SessionsOk, OrphansOk;
      var answers: bool, arrives: bool := *, *;
      Elapse();
      if arrives && answers {
        var issued := Issue(r);
        return Some(issued);
      }
      if arrives {
        Orphan();
      }
      registerErrors := registerErrors + multiset{r.endpoint};
      return None;
    }

    /** The registration arrives, and its caller is told the id. */
    method Issue(r: Request) returns (id: SessionId)
      requires Valid()
      modifies this`next, this`requests, this`renewed, this`expires
      ensures Valid() && id !in old(requests)
      ensures requests == old(requests)[id := r]
      ensures renewed == old(renewed)[id := now] && expires == old(expires)[id := now + LEASE]
    {
      id, next := next, next + 1;
      requests := requests[id := r];
      renewed, expires := renewed[id := now], expires[id := now + LEASE];
    }

    /** The registration arrives, and its caller gets an error. */
    method Orphan()
      requires Valid()
      modifies this`next, this`orphans, this`orphaned
      ensures Valid() && old(next) !in old(orphaned) && orphaned == old(orphaned)[old(next) := now]
    {
      orphans, orphaned := orphans[next := now + LEASE], orphaned[next := now];
      next := next + 1;
    }

    method ExpireSession(id: SessionId) returns (ok: bool)
      requires Valid()
      modifies this`now, this`expires, this`asked
      ensures Valid() && old(now) <= now && asked == old(asked) + {id}
      ensures expires == old(expires) - {id} || (!ok && expires == old(expires))
    {
      asked := asked + {id};
      var answers: bool, arrives: bool := *, *;
      Elapse();
      if arrives {
        expires := expires - {id};
      }
      ok := arrives && answers;
    }
  }

  /** No session is forgotten or changed. */
  ghost predicate Extends(a: map<SessionId, Request>, b: map<SessionId, Request>) {
    forall id :: id in a ==> id in b && b[id] == a[id]
  }

  function AccountIn(links: map<(string, u32), string>, namespace: string, pid: u32): string {
    if (namespace, pid) in links then links[(namespace, pid)] else ""
  }

  /** nn-account's answer to which account is behind a PID; a lookup may fail, and the answer may change over time. */
  class Accounts {
    var links: map<(string, u32), string>
    ghost var errors: multiset<u32>   // the PIDs whose account was not found although there is one

    constructor (links: map<(string, u32), string>)
      ensures this.links == links
    {
      this.links := links;
    }

    /** The account id, "" standing for any error. */
    method AccountOf(namespace: string, pid: u32) returns (account: string)
      modifies this`errors
      ensures account != "" ==> Account(namespace, pid) == account
      ensures account == "" && Account(namespace, pid) != "" ==> errors == old(errors) + multiset{pid}
      ensures account != "" || Account(namespace, pid) == "" ==> errors == old(errors)
    {
      var ok: bool := *;
      account := "";
      if (namespace, pid) in links {
        if ok {
          account := links[(namespace, pid)];
        } else if links[(namespace, pid)] != "" {
          errors := errors + multiset{pid};
        }
      }
    }

    /** "" when there is no core account behind the PID. */
    function Account(namespace: string, pid: u32): string reads this`links {
      AccountIn(links, namespace, pid)
    }

    /** People link and unlink their consoles. */
    method Relink()
      modifies this`links
    {
      links := *;
    }
  }

  /** What became of a session the core returned: held for a PID, or no longer, and since when. */
  datatype Fate = HeldBy(pid: u32) | Expired(at: nat) | Dropped(at: nat)

  /**
    What a pass changes: the records held, what became of each session, what it was registered with, when it was last
    renewed, which are listed, when those were registered whose registration was answered with an error, of which a
    heartbeat failed, and which the core was asked to end.
   */
  datatype View = View(
    live: map<u32, Published>, fate: map<SessionId, Fate>, requests: map<SessionId, Request>, renewed: map<SessionId, nat>,
    listed: set<SessionId>, orphaned: map<SessionId, nat>, unanswered: set<SessionId>, asked: set<SessionId>, now: nat)

  /** No session is forgotten, and nothing happens to one whose registration was answered with an error. */
  ghost predicate HistoryStays(a: View, b: View) {
    && Extends(a.requests, b.requests)
    && forall id :: id in a.orphaned ==> id in b.orphaned && b.orphaned[id] == a.orphaned[id]
  }

  /** From `a` to `b`, only sessions of `pid`, and new ones of it, have been called about. */
  ghost predicate OnlyTouches(a: View, b: View, pid: u32) {
    && a.now <= b.now && HistoryStays(a, b)
    && a.live - {pid} == b.live - {pid}
    && (forall id :: id in a.fate && a.fate[id] != HeldBy(pid) ==> Untouched(a, b, id))
    && (forall id :: id in a.fate ==> id in b.fate)
    && (forall id :: id in b.fate && id !in a.fate ==> b.fate[id] == HeldBy(pid))
  }

  /** Neither heartbeated nor expired, and of the same fate. */
  ghost predicate Untouched(a: View, b: View, id: SessionId) {
    && id in a.fate && id in b.fate && b.fate[id] == a.fate[id]
    && id in a.renewed && id in b.renewed && b.renewed[id] == a.renewed[id]
    && (id in b.listed <==> id in a.listed)
    && (id in b.unanswered <==> id in a.unanswered) && (id in b.asked <==> id in a.asked)
  }

  lemma TouchesTrans(a: View, b: View, c: View, pid: u32)
    requires OnlyTouches(a, b, pid) && OnlyTouches(b, c, pid) && b.fate.Keys == a.fate.Keys
    ensures OnlyTouches(a, c, pid) && a.now <= b.now <= c.now
  {
    forall id | id in a.fate && a.fate[id] != HeldBy(pid)
      ensures Untouched(a, c, id)
    {
      assert Untouched(a, b, id);
      assert Untouched(b, c, id);
    }
  }

  lemma TouchesNothing(a: View, pid: u32)
    requires forall id :: id in a.fate ==> id in a.renewed
    ensures OnlyTouches(a, a, pid)
  {
  }

  lemma TouchesLater(a: View, b: View, pid: u32)
    requires forall id :: id in a.fate ==> id in a.renewed
    requires a.now <= b.now && b == a.(now := b.now, orphaned := b.orphaned) && HistoryStays(a, b)
    ensures OnlyTouches(a, b, pid)
  {
  }

  lemma TouchesKeeps(a: View, b: View, pid: u32, id: SessionId)
    requires OnlyTouches(a, b, pid) && id in a.fate && a.fate[id] != HeldBy(pid)
    ensures Untouched(a, b, id)
  {
  }

  lemma RegisterTouches(a: View, b: View, pid: u32, id: SessionId)
    requires pid !in a.live && id !in a.fate && forall x :: x in a.fate ==> x in a.renewed
    requires pid in b.live && b.live == a.live[pid := b.live[pid]] && b.fate == a.fate[id := HeldBy(pid)]
    requires id in b.renewed && b.renewed == a.renewed[id := b.renewed[id]] && b.listed == a.listed + {id} && a.now <= b.now
    requires b.orphaned == a.orphaned && b.unanswered == a.unanswered && b.asked == a.asked
    requires Extends(a.requests, b.requests)
    ensures OnlyTouches(a, b, pid)
  {
  }

  /** A call about the session held for `pid`. */
  lemma CallTouches(a: View, b: View, pid: u32, id: SessionId)
    requires id in a.fate && a.fate[id] == HeldBy(pid) && forall x :: x in a.fate ==> x in a.renewed
    requires b.live == a.live || b.live == a.live - {pid}
    requires id in b.fate && b.fate == a.fate[id := b.fate[id]]
    requires id in b.renewed && b.renewed == a.renewed[id := b.renewed[id]]
    requires b.listed - {id} == a.listed - {id} && b.asked - {id} == a.asked - {id}
    requires b.unanswered - {id} == a.unanswered - {id}
    requires b.orphaned == a.orphaned && b.requests == a.requests && a.now <= b.now
    ensures OnlyTouches(a, b, pid)
  {
    forall x | x in a.fate && a.fate[x] != HeldBy(pid) ensures Untouched(a, b, x) {
      assert x in b.listed - {id} <==> x in a.listed - {id};
      assert x in b.unanswered - {id} <==> x in a.unanswered - {id};
      assert x in b.asked - {id} <==> x in a.asked - {id};
    }
  }

  /** Listed under a lease that started at `since` or later. */
  ghost predicate Listed(v: View, id: SessionId, since: nat) {
    id in v.listed && id in v.renewed && since <= v.renewed[id]
  }

  /** What is held for `o`, if anything, is what it asks for and is listed. */
  ghost predicate Settled(v: View, o: Online, since: nat) {
    o.pid in v.live ==> Unchanged(v.live[o.pid], o) && Listed(v, v.live[o.pid].sessionId, since)
  }

  /** What became of the session held for `o` before: kept only if nothing changed, given up only unanswered, else expired. */
  ghost predicate Decided(before: View, v: View, o: Online) {
    o.pid in before.live ==>
      var p := before.live[o.pid];
      && p.sessionId in v.fate
      && if Unchanged(p, o)
         then (v.fate[p.sessionId] == HeldBy(o.pid) && o.pid in v.live && v.live[o.pid] == p) || v.fate[p.sessionId].Dropped?
         else v.fate[p.sessionId].Expired?
  }

  /** A held session is held for one PID, as it was registered. */
  ghost predicate RecordOk(v: View, pid: u32)
    requires pid in v.live
  {
    var p := v.live[pid];
    && p.sessionId in v.fate && v.fate[p.sessionId] == HeldBy(pid)
    && p.sessionId in v.requests && v.requests[p.sessionId] == RequestOf(p, pid)
    && p.accountId != ""
  }

  /**
    A session held for a PID is the one in its record; one not held any more has not been renewed since. It is dropped
    exactly when a heartbeat of it has failed, and expired exactly when the core has been asked to end it.
   */
  ghost predicate FateOk(v: View, id: SessionId)
    requires id in v.fate
  {
    && id in v.renewed
    && (id in v.unanswered <==> v.fate[id].Dropped?)
    && (id in v.asked <==> v.fate[id].Expired?)
    && match v.fate[id]
       case HeldBy(pid) => pid in v.live && v.live[pid].sessionId == id
       case Expired(at) => v.renewed[id] <= at <= v.now
       case Dropped(at) => v.renewed[id] <= at <= v.now
  }

  ghost predicate Consistent(v: View) {
    && (forall pid :: pid in v.live ==> RecordOk(v, pid))
    && (forall id :: id in v.fate ==> FateOk(v, id))
    && v.unanswered + v.asked <= v.fate.Keys
  }

  /** Calls to the core that only add sessions, or renew none of those known here, break nothing. */
  lemma ConsistentStill(a: View, b: View)
    requires Consistent(a) && b.live == a.live && b.fate == a.fate && a.now <= b.now
    requires b.unanswered == a.unanswered && b.asked == a.asked && Extends(a.requests, b.requests)
    requires forall x :: x in a.fate && x in a.renewed ==> x in b.renewed && b.renewed[x] == a.renewed[x]
    ensures Consistent(b)
  {
    forall pid | pid in b.live ensures RecordOk(b, pid) {
      assert RecordOk(a, pid);
    }
    forall id | id in b.fate ensures FateOk(b, id) {
      assert FateOk(a, id);
    }
  }

  /** Nor does a renewal. */
  lemma ConsistentRenewed(a: View, b: View, pid: u32, id: SessionId)
    requires Consistent(a) && pid in a.live && id == a.live[pid].sessionId && a.now <= b.now
    requires id in b.renewed && b == a.(now := b.now, listed := b.listed, renewed := a.renewed[id := b.renewed[id]])
    ensures Consistent(b)
  {
    forall q | q in b.live ensures RecordOk(b, q) {
      assert RecordOk(a, q);
    }
    assert RecordOk(a, pid);
    forall x | x in b.fate ensures FateOk(b, x) {
      assert FateOk(a, x);
    }
  }

  /** Nor does a record of a session just registered. */
  lemma ConsistentHeld(a: View, b: View, pid: u32, p: Published)
    requires Consistent(a) && pid !in a.live && p.sessionId !in a.fate && p.sessionId in a.renewed && p.accountId != ""
    requires p.sessionId in a.requests && a.requests[p.sessionId] == RequestOf(p, pid)
    requires b == a.(live := a.live[pid := p], fate := a.fate[p.sessionId := HeldBy(pid)])
    ensures Consistent(b)
  {
    forall q | q in b.live ensures RecordOk(b, q) {
      if q != pid {
        assert RecordOk(a, q);
      }
    }
    forall x | x in b.fate ensures FateOk(b, x) {
      if x != p.sessionId {
        assert FateOk(a, x);
      }
    }
  }

  /** Nor does deleting the record of `pid` after a call about its session. */
  lemma ConsistentAfter(a: View, b: View, pid: u32, id: SessionId)
    requires Consistent(a) && pid in a.live && id == a.live[pid].sessionId && a.now <= b.now && b.requests == a.requests
    requires b.live == a.live - {pid} && id in b.fate && b.fate == a.fate[id := b.fate[id]]
    requires id in b.renewed && b.renewed == a.renewed[id := b.renewed[id]]
    requires !b.fate[id].HeldBy? && b.renewed[id] <= b.fate[id].at <= b.now
    requires b.unanswered == a.unanswered + if b.fate[id].Dropped? then {id} else {}
    requires b.asked == a.asked + if b.fate[id].Expired? then {id} else {}
    ensures Consistent(b)
  {
    assert RecordOk(a, pid) && FateOk(a, id);
    forall q | q in b.live ensures RecordOk(b, q) {
      assert RecordOk(a, q);
    }
    forall x | x in b.fate ensures FateOk(b, x) {
      if x != id {
        assert FateOk(a, x);
      }
    }
  }

  /**
    `live` is the code's map. `fate` is history: what became of every session id the core has returned, `Expired` when
    it was handed to ExpireSession and `Dropped` when it was given up after a failed heartbeat.
   */
  class Publisher {
    const core: Registry
    const accounts: Accounts
    var live: map<u32, Published>
    ghost var fate: map<SessionId, Fate>

    ghost predicate Valid() reads this, core {
      core.Valid() && fate.Keys == core.requests.Keys && Consistent(Now())
    }

    constructor (core: Registry, accounts: Accounts)
      requires core.Valid() && core.requests == map[] && core.unanswered == core.asked == {}
      ensures Valid() && this.core == core && this.accounts == accounts && live == map[] && fate == map[]
    {
      this.core, this.accounts := core, accounts;
      live, fate := map[], map[];
    }

    /** The PIDs whose lookup or registration has failed. */
    ghost function Errors(): multiset<u32> reads core`registerErrors, accounts`errors {
      core.registerErrors + accounts.errors
    }

    ghost function Now(): View reads this, core {
      View(live, fate, core.requests, core.renewed, core.expires.Keys, core.orphaned, core.unanswered, core.asked, core.now)
    }

    /** Registers a session for `o` and records it, unless there is no account to find or the call fails. */
    method RegisterLocked(o: Online)
      requires Valid() && o.pid !in live
      modifies this`live, this`fate, core, accounts`errors
      ensures Valid() && OnlyTouches(old(Now()), Now(), o.pid) && Settled(Now(), o, old(core.now))
      ensures Errors() == old(Errors()) || (Errors() == old(Errors()) + multiset{o.pid} && o.pid !in live)
      ensures Errors() == old(Errors()) ==> Matches(accounts.links, Now(), o)
      ensures o.pid in live ==> live[o.pid].accountId == accounts.Account(o.namespace, o.pid) != ""
    {
      hide OnlyTouches, Untouched, Consistent, Registry.Valid, RecordOk, FateOk;
      ghost var before := Now();
      KnownRenewed();
      TouchesNothing(before, o.pid);
      var accountId := accounts.AccountOf(o.namespace, o.pid);
      if accountId == "" {
        return;
      }
      Register(o, accountId);
    }

    /** RegisterSession, and the record of the session it returns. */
    method Register(o: Online, accountId: string)
      requires Valid() && o.pid !in live && accountId != ""
      modifies this`live, this`fate, core
      ensures Valid() && OnlyTouches(old(Now()), Now(), o.pid) && Settled(Now(), o, old(core.now))
      ensures core.registerErrors == old(core.registerErrors) + if o.pid in live then multiset{} else multiset{o.pid}
      ensures o.pid in live ==> live[o.pid].accountId == accountId
    {
      hide OnlyTouches, Untouched, Consistent, Registry.Valid, RecordOk, FateOk;
      ghost var before := Now();
      KnownRenewed();
      var id := core.RegisterSession(
        Request(accountId, o.namespace, o.titleId, o.pid, LEASE, o.client, o.os));
      ConsistentStill(before, Now());
      if id.None? {
        TouchesLater(before, Now(), o.pid);
        return;
      }
      Hold(o.pid, Published(id.value, accountId, o.namespace, o.titleId, o.client, o.os));
      RegisterTouches(before, Now(), o.pid, id.value);
    }

    /** A session just registered is recorded under its PID. */
    method Hold(pid: u32, p: Published)
      requires core.Valid() && pid !in live && p.sessionId !in fate
      requires core.requests.Keys == fate.Keys + {p.sessionId}
      requires core.requests[p.sessionId] == RequestOf(p, pid)
      requires p.accountId != "" && p.sessionId in core.renewed
      requires Consistent(Now())
      modifies this`live, this`fate
      ensures Valid()
      ensures live == old(live)[pid := p] && fate == old(fate)[p.sessionId := HeldBy(pid)]
    {
      hide Consistent, Registry.Valid;
      ghost var before := Now();
      live := live[pid := p];
      fate := fate[p.sessionId := HeldBy(pid)];
      ConsistentHeld(before, Now(), pid, p);
    }

    /** Forgets the session held for `pid`, if any, and asks the core to end it; whether it does is not waited for. */
    method ExpireLocked(pid: u32)
      requires Valid()
      modifies this`live, this`fate, core`now, core`expires, core`asked
      ensures Valid() && OnlyTouches(old(Now()), Now(), pid)
      ensures live == old(live) - {pid} && fate.Keys == old(fate.Keys)
      ensures pid in old(live) ==> fate[old(live)[pid].sessionId] == Expired(old(core.now))
      ensures core.asked == old(core.asked) + if pid in old(live) then {old(live)[pid].sessionId} else {}
    {
      hide OnlyTouches, Untouched, Consistent, Registry.Valid, RecordOk, FateOk;
      ghost var before := Now();
      KnownRenewed();
      if pid in live {
        HeldByIt(pid);
        var id := live[pid].sessionId;
        live := live - {pid};
        var ok := core.ExpireSession(id);
        fate := fate[id := Expired(before.now)];
        ConsistentAfter(before, Now(), pid, id);
        CallTouches(before, Now(), pid, id);
      } else {
        TouchesNothing(before, pid);
      }
    }

    /** A heartbeat for the session held for `pid`; if it goes unanswered, the record is deleted without another call. */
    method Beat(pid: u32) returns (ok: bool)
      requires Valid() && pid in live
      modifies this`live, this`fate, core`now, core`expires, core`renewed, core`unanswered
      ensures Valid() && OnlyTouches(old(Now()), Now(), pid) && fate.Keys == old(fate.Keys)
      ensures ok ==> live == old(live) && fate == old(fate) && Listed(Now(), live[pid].sessionId, old(core.now))
      ensures !ok ==> pid !in live && fate[old(live)[pid].sessionId] == Dropped(core.now)
      ensures core.unanswered == old(core.unanswered) + if ok then {} else {old(live)[pid].sessionId}
    {
      hide OnlyTouches, Untouched, Consistent, Registry.Valid, RecordOk, FateOk;
      ghost var before := Now();
      KnownRenewed();
      HeldByIt(pid);
      var id := live[pid].sessionId;
      ok := core.Heartbeat(id);
      if ok {
        ConsistentRenewed(before, Now(), pid, id);
      } else {
        live := live - {pid};
        fate := fate[id := Dropped(core.now)];
        ConsistentAfter(before, Now(), pid, id);
      }
      CallTouches(before, Now(), pid, id);
    }

    /** One turn of Reconcile's first loop. */
    method ReconcileOne(o: Online)
      requires Valid()
      modifies this`live, this`fate, core, accounts`errors
      ensures Valid() && OnlyTouches(old(Now()), Now(), o.pid)
      ensures Settled(Now(), o, old(core.now)) && Decided(old(Now()), Now(), o)
      ensures Errors() == old(Errors()) || (Errors() == old(Errors()) + multiset{o.pid} && o.pid !in live)
      ensures Errors() == old(Errors()) ==>
        Renewed(old(Now()), Now(), o) || Matches(accounts.links, Now(), o)
      ensures Beaten(old(Now()), Now(), o)
    {
      hide OnlyTouches, Registry.Valid, Registry.SessionsOk, Registry.OrphansOk, Consistent, Accounts.Account;
      ghost var before := Now();
      if o.pid in live && Unchanged(live[o.pid], o) {
        HeldByIt(o.pid);
        var ok := Beat(o.pid);
        if ok {
          return;
        }
      } else if o.pid in live {
        HeldByIt(o.pid);
        ExpireLocked(o.pid);
      } else {
        KnownRenewed();
        TouchesNothing(before, o.pid);
      }
      ghost var freed := Now();
      RegisterLocked(o);
      TouchesTrans(before, freed, Now(), o.pid);
      if o.pid in before.live {
        TouchesKeeps(freed, Now(), o.pid, before.live[o.pid].sessionId);
      }
    }

    lemma HeldByIt(pid: u32)
      requires Valid() && pid in live
      ensures live[pid].sessionId in fate && fate[live[pid].sessionId] == HeldBy(pid)
      ensures live[pid].sessionId in core.renewed
    {
    }

    lemma KnownRenewed()
      requires Valid()
      ensures forall id :: id in fate ==> id in core.renewed && core.renewed[id] <= core.now
    {
    }

    /** Expire: a person's connection ended. */
    method Expire(pid: u32)
      requires Valid()
      modifies this`live, this`fate, core`now, core`expires, core`asked
      ensures Valid() && OnlyTouches(old(Now()), Now(), pid)
      ensures pid !in live
      ensures pid in old(live) ==> fate[old(live)[pid].sessionId].Expired?
    {
      ExpireLocked(pid);
    }

    /**
      One pass. Whatever call fails, the sessions named in `online` are settled or not held, and all others are expired;
      a session no longer held before the pass is not touched by it. If no lookup and no registration fails, and every
      record that is to be kept still names the account behind its PID, the pass converges.
     */
    method Reconcile(online: seq<Online>) returns (ghost failed: set<u32>)
      requires Valid()
      modifies this`live, this`fate, core, accounts`errors
      ensures Valid()
      ensures Distinct(online) ==> Reconciled(old(Now()), Now(), online) && Calls(old(Now()), Now(), online)
      ensures live.Keys <= Pids(online)
      ensures Distinct(online) ==>
        && Errors() == old(Errors()) + multiset(failed) && failed <= Pids(online) && failed !! live.Keys
        && Complete(accounts.links, old(Now()), Now(), online, failed)
      ensures Distinct(online) && Errors() == old(Errors()) && UpToDate(accounts.links, old(Now()), online) ==>
        Converged(accounts.links, Now(), online)
    {
      hide OnlyTouches, Registry.Valid, Registry.SessionsOk, Registry.OrphansOk, Consistent;
      hide Progress, Ending, Complete, Served, Settled, Decided, Distinct, Pids, Renewed, UpToDate, Converged, Calls;
      ghost var before := Now();
      IsLinked();
      var seen;
      seen, failed := ReconcileSeen(online);
      ExpireUnseen(seen, before, online, failed);
      IsLinked();
      if Distinct(online) {
        PassCalls(before, Now(), online);
        if Errors() == old(Errors()) {
          assert failed == {} by {
            assert multiset(failed) == multiset{};
          }
          ConvergenceBefore(accounts.links, before, Now(), online);
        }
      }
    }

    /** Reconcile's first loop: everybody who is connected. */
    method ReconcileSeen(online: seq<Online>) returns (seen: set<u32>, ghost failed: set<u32>)
      requires Valid()
      modifies this`live, this`fate, core, accounts`errors
      ensures Valid() && seen == Pids(online)
      ensures Distinct(online) ==>
        && Progress(old(Now()), Now(), online) && Complete(accounts.links, old(Now()), Now(), online, failed)
        && Errors() == old(Errors()) + multiset(failed) && failed <= seen && failed !! live.Keys
    {
      hide OnlyTouches, Registry.Valid, Registry.SessionsOk, Registry.OrphansOk, Consistent, Matches;
      hide Progress, Complete, Settled, Decided, Distinct, Pids, Renewed, Beaten;
      ghost var before := Now();
      seen, failed := {}, {};
      IsLinked();
      ProgressStart(accounts.links, before);
      for i := 0 to |online|
        invariant Valid() && Linked(Now())
        invariant seen == Pids(online[..i])
        invariant Distinct(online) ==>
          && Progress(before, Now(), online[..i]) && Complete(accounts.links, before, Now(), online[..i], failed)
          && Errors() == old(Errors()) + multiset(failed) && failed <= seen && failed !! live.Keys
      {
        hide Linked;
        ghost var v, errors := Now(), Errors();
        assert online[..i + 1] == online[..i] + [online[i]];
        PidsSnoc(online[..i], online[i]);
        ReconcileOne(online[i]);
        IsLinked();
        if Distinct(online) {
          DistinctPrefix(online, i + 1);
          ProgressStep(before, v, Now(), online[..i], online[i]);
          ghost var fails := if Errors() == errors then {} else {online[i].pid};
          CompleteStep(accounts.links, before, v, Now(), online[..i], online[i], failed, fails);
          StaysFree(v, Now(), online[i].pid, failed);
          failed := failed + fails;
        }
        seen := seen + {online[i].pid};
      }
      assert online[..|online|] == online;
    }

    /** Reconcile's second loop: everybody held who is not connected any more. */
    method ExpireUnseen(seen: set<u32>, ghost before: View, ghost online: seq<Online>, ghost failed: set<u32>)
      requires Valid() && Linked(before) && seen == Pids(online)
      modifies this`live, this`fate, core`now, core`expires, core`asked
      ensures Valid()
      ensures Progress(before, old(Now()), online) ==> Reconciled(before, Now(), online)
      ensures live.Keys <= seen
      ensures live.Keys <= old(live.Keys)
      ensures Complete(accounts.links, before, old(Now()), online, failed) ==>
        Complete(accounts.links, before, Now(), online, failed)
    {
      hide OnlyTouches, Registry.Valid, Registry.SessionsOk, Registry.OrphansOk, Consistent;
      hide Progress, Ending, Complete, Served, Settled, Decided, Distinct, Pids;
      ghost var start := Now();
      var rest := live.Keys;
      IsLinked();
      if Progress(before, start, online) {
        EndingStart(before, start, online, rest);
      }
      while rest != {}
        invariant Valid() && Linked(Now())
        invariant live.Keys <= seen + rest
        invariant Progress(before, start, online) ==> Ending(before, Now(), online, rest)
        invariant live.Keys <= old(live.Keys)
        invariant Complete(accounts.links, before, start, online, failed) ==>
          Complete(accounts.links, before, Now(), online, failed)
        decreases |rest|
      {
        hide Linked;
        var pid :| pid in rest;
        ghost var v := Now();
        ghost var todo := rest;
        rest := rest - {pid};
        if pid !in seen {
          ExpireLocked(pid);
          IsLinked();
          if Progress(before, start, online) {
            EndingStep(before, v, Now(), online, todo, pid);
          }
          if Complete(accounts.links, before, start, online, failed) {
            CompleteKept(accounts.links, before, v, Now(), online, pid, failed);
          }
        } else if Progress(before, start, online) {
          EndingSkip(before, v, online, todo, pid);
        }
      }
    }

    /** The core forgets sessions; nobody here is told. */
    method Forget()
      requires Valid()
      modifies core`expires, core`orphans
      ensures Valid() && Now() == old(Now()).(listed := core.expires.Keys)
    {
      core.Lose();
    }

    /** Any run: sessions given up stay given up, whatever fails. */
    method Run(ops: seq<Op>)
      requires Valid()
      requires forall i :: 0 <= i < |ops| && ops[i].Pass? ==> Distinct(ops[i].online)
      modifies this`live, this`fate, core, accounts
      ensures Valid() && StaysGone(old(Now()), Now())
    {
      hide OnlyTouches, Registry.Valid, Registry.SessionsOk, Registry.OrphansOk, Consistent, StaysGone, Ending, Distinct;
      ghost var before := Now();
      IsLinked();
      StaysGoneNow(before);
      for i := 0 to |ops|
        invariant Valid() && StaysGone(before, Now())
      {
        ghost var v := Now();
        match ops[i] {
          case Pass(online) => var _ := Reconcile(online); PassStaysGone(v, Now(), online);
          case Leave(pid) => Expire(pid); TouchStaysGone(v, Now(), pid);
          case CoreForgets => IsLinked(); Forget(); StaysGoneNow(v); ForgetStaysGone(v, Now());
          case Relinks => IsLinked(); accounts.Relink(); StaysGoneNow(v);
        }
        StaysGoneTrans(before, v, Now());
      }
    }

    /**
      A session that is not held lapses in the core at most one lease after it was given up, ended there or not, and one
      whose registration was answered with an error at most one lease after that.
     */
    lemma GhostBound()
      requires Valid()
      ensures forall id :: id in core.orphans ==>
        id !in fate && id in core.orphaned && core.orphans[id] <= core.orphaned[id] + 45
      ensures forall id :: id in fate && !fate[id].HeldBy? && id in core.expires ==> core.expires[id] <= fate[id].at + 45
    {
    }

    /** Every session the core has returned is held, was handed to ExpireSession or was dropped, and counted once. */
    lemma Conserved()
      requires Valid()
      ensures ExpiredIds(fate) == core.asked && DroppedIds(fate) == core.unanswered
      ensures |core.requests| == |live| + |core.asked| + |core.unanswered|
    {
      IsLinked();
      Conservation(Now());
      assert |core.requests| == |core.requests.Keys| == |fate.Keys| == |fate|;
    }

    /** What is held after a pass is listed under a lease of 45 seconds that began in the pass. */
    lemma HeldForALease(before: View, online: seq<Online>)
      requires Valid() && Reconciled(before, Now(), online) && live.Keys <= Pids(online)
      ensures forall pid :: pid in live ==>
        var id := live[pid].sessionId;
        && id in core.requests && core.requests[id].leaseSeconds == 45
        && id in core.expires && core.expires[id] >= before.now + 45
    {
      forall pid | pid in live
        ensures RecordOk(Now(), pid) && Listed(Now(), live[pid].sessionId, before.now)
      {
        var k :| 0 <= k < |online| && online[k].pid == pid;
        assert Settled(Now(), online[k], before.now);
      }
    }

    lemma IsLinked()
      requires Valid()
      ensures Linked(Now())
    {
    }
  }

  /** What can happen to a publisher: a pass, a disconnect, the core forgetting sessions, and people linking consoles. */
  datatype Op = Pass(online: seq<Online>) | Leave(pid: u32) | CoreForgets | Relinks

  /** A session given up at `a`, or never returned, has the same fate at `b`, and no heartbeat reached it in between. */
  ghost predicate StaysGone(a: View, b: View) {
    && a.now <= b.now && HistoryStays(a, b)
    && (forall id :: id in a.fate ==> id in b.fate)
    && (forall id :: id in a.fate && id in b.fate && !a.fate[id].HeldBy? ==>
          && b.fate[id] == a.fate[id]
          && id in a.renewed && id in b.renewed && b.renewed[id] == a.renewed[id])
  }

  ghost function Pids(online: seq<Online>): set<u32> {
    set i | 0 <= i < |online| :: online[i].pid
  }

  lemma PidsSnoc(online: seq<Online>, o: Online)
    ensures Pids(online + [o]) == Pids(online) + {o.pid}
  {
    var all := online + [o];
    assert forall i :: 0 <= i < |online| ==> all[i] == online[i];
    assert all[|online|] == o;
  }

  /** As read from the map of connected users: one entry a PID. */
  ghost predicate Distinct(online: seq<Online>) {
    forall i, j :: 0 <= i < j < |online| ==> online[i].pid != online[j].pid
  }

  lemma DistinctPrefix(online: seq<Online>, n: nat)
    requires Distinct(online) && 0 < n <= |online|
    ensures Distinct(online[..n]) && online[n - 1].pid !in Pids(online[..n - 1])
  {
  }

  /** Records and fates name each other, one session a PID, and each fate has its call. */
  ghost predicate Linked(v: View) {
    && (forall pid :: pid in v.live ==>
          && v.live[pid].sessionId in v.fate && v.fate[v.live[pid].sessionId] == HeldBy(pid)
          && v.live[pid].accountId != "")
    && (forall id :: id in v.fate && v.fate[id].HeldBy? ==>
          v.fate[id].pid in v.live && v.live[v.fate[id].pid].sessionId == id)
    && (forall id :: id in v.fate ==> id in v.renewed)
    && v.unanswered == DroppedIds(v.fate) && v.asked == ExpiredIds(v.fate)
  }

  ghost predicate Served(a: View, v: View, done: seq<Online>) {
    forall k :: 0 <= k < |done| ==> Settled(v, done[k], a.now) && Decided(a, v, done[k])
  }

  /** A session that was not held any more at `a` has been neither heartbeated nor held again by `v`. */
  ghost predicate GoneAlone(a: View, v: View) {
    forall id :: id in a.fate && !a.fate[id].HeldBy? ==> Untouched(a, v, id)
  }

  /** Nothing has happened to what is held for `q` yet. */
  ghost predicate Waiting(a: View, v: View, q: u32) {
    if q in a.live then q in v.live && v.live[q] == a.live[q] else q !in v.live
  }

  /** The session held for `q`, if any, has been handed to ExpireSession. */
  ghost predicate Ended(a: View, v: View, q: u32) {
    && q !in v.live
    && (q in a.live ==> a.live[q].sessionId in v.fate && v.fate[a.live[q].sessionId].Expired?)
  }

  /** Sessions registered since `a` are held for somebody in `done`. */
  ghost predicate NewlyHeld(a: View, v: View, done: seq<Online>) {
    forall id :: id in v.fate && id !in a.fate ==> v.fate[id].HeldBy? && v.fate[id].pid in Pids(done)
  }

  lemma KeptNew(a: View, v: View, w: View, done: seq<Online>, pid: u32, all: seq<Online>)
    requires NewlyHeld(a, v, done) && OnlyTouches(v, w, pid) && pid !in Pids(done) && Pids(done) <= Pids(all)
    requires pid in Pids(all) || w.fate.Keys == v.fate.Keys
    ensures NewlyHeld(a, w, all)
  {
    forall id | id in w.fate && id !in a.fate ensures w.fate[id].HeldBy? && w.fate[id].pid in Pids(all) {
      if id in v.fate {
        assert Untouched(v, w, id);
      }
    }
  }

  /** The first loop has dealt with `done`. */
  ghost predicate Progress(a: View, v: View, done: seq<Online>) {
    && a.now <= v.now && HistoryStays(a, v) && a.fate.Keys <= v.fate.Keys && GoneAlone(a, v) && Served(a, v, done)
    && NewlyHeld(a, v, done)
    && (forall q :: q !in Pids(done) ==> Waiting(a, v, q))
  }

  /** The second loop has `todo` left. */
  ghost predicate Ending(a: View, v: View, online: seq<Online>, todo: set<u32>) {
    && a.now <= v.now && HistoryStays(a, v) && a.fate.Keys <= v.fate.Keys && GoneAlone(a, v) && Served(a, v, online)
    && NewlyHeld(a, v, online)
    && (forall q :: q !in Pids(online) ==> if q in todo then Waiting(a, v, q) else Ended(a, v, q))
  }

  /** What one pass over distinct PIDs does, whatever fails. */
  ghost predicate Reconciled(a: View, v: View, online: seq<Online>) {
    Ending(a, v, online, {})
  }

  /** The record held for `o` before the pass was renewed: unchanged, and its heartbeat was answered. */
  ghost predicate Renewed(a: View, v: View, o: Online) {
    o.pid in a.live && Unchanged(a.live[o.pid], o) && o.pid in v.live && v.live[o.pid] == a.live[o.pid]
  }

  /** Held for the account behind the PID, or not held and there is none. */
  ghost predicate Matches(links: map<(string, u32), string>, v: View, o: Online) {
    if o.pid in v.live then v.live[o.pid].accountId == AccountIn(links, o.namespace, o.pid) != ""
    else AccountIn(links, o.namespace, o.pid) == ""
  }

  /** What a pass does for everybody whose lookup and registration did not fail; a renewed record is not looked up again. */
  ghost predicate Complete(links: map<(string, u32), string>, a: View, v: View, done: seq<Online>, failed: set<u32>) {
    forall k :: 0 <= k < |done| && done[k].pid !in failed ==> Renewed(a, v, done[k]) || Matches(links, v, done[k])
  }

  lemma ProgressStart(links: map<(string, u32), string>, a: View)
    requires Linked(a)
    ensures Progress(a, a, []) && Complete(links, a, a, [], {}) && Pids([]) == {}
  {
  }

  lemma KeptSettled(a: View, v: View, w: View, o: Online, pid: u32)
    requires Linked(v) && OnlyTouches(v, w, pid) && o.pid != pid
    requires Settled(v, o, a.now) && Decided(a, v, o) && Linked(a)
    ensures Settled(w, o, a.now) && Decided(a, w, o)
  {
    if o.pid in v.live {
      assert Untouched(v, w, v.live[o.pid].sessionId);
      assert o.pid in v.live - {pid};
    }
    if o.pid in w.live {
      assert o.pid in w.live - {pid};
    }
    if o.pid in a.live {
      assert Untouched(v, w, a.live[o.pid].sessionId);
    }
  }

  lemma KeptWaiting(a: View, v: View, w: View, q: u32, pid: u32)
    requires OnlyTouches(v, w, pid) && q != pid && Waiting(a, v, q)
    ensures Waiting(a, w, q)
  {
    assert q in v.live <==> q in v.live - {pid};
    assert q in w.live <==> q in w.live - {pid};
  }

  lemma KeptGone(a: View, v: View, w: View, pid: u32)
    requires OnlyTouches(v, w, pid) && GoneAlone(a, v)
    ensures GoneAlone(a, w)
  {
    forall id | id in a.fate && !a.fate[id].HeldBy? ensures Untouched(a, w, id) {
      assert Untouched(a, v, id);
      assert Untouched(v, w, id);
    }
  }

  lemma ProgressStep(a: View, v: View, w: View, done: seq<Online>, o: Online)
    requires Progress(a, v, done) && Linked(a) && Linked(v) && Distinct(done + [o])
    requires OnlyTouches(v, w, o.pid) && Settled(w, o, v.now) && Decided(v, w, o)
    ensures Progress(a, w, done + [o])
  {
    var all := done + [o];
    PidsSnoc(done, o);
    DistinctPrefix(all, |all|);
    assert all[..|done|] == done;
    forall k | 0 <= k < |all| ensures Settled(w, all[k], a.now) && Decided(a, w, all[k]) {
      if k < |done| {
        assert all[k] == done[k] && all[|done|] == o;
        KeptSettled(a, v, w, done[k], o.pid);
      } else {
        assert Waiting(a, v, o.pid);
      }
    }
    forall q | q !in Pids(all) ensures Waiting(a, w, q) {
      KeptWaiting(a, v, w, q, o.pid);
    }
    KeptGone(a, v, w, o.pid);
    KeptNew(a, v, w, done, o.pid, all);
  }

  /** What is held for `o` does not change by what is done for others. */
  lemma KeptComplete(links: map<(string, u32), string>, a: View, v: View, w: View, o: Online, pid: u32)
    requires OnlyTouches(v, w, pid) && o.pid != pid && (Renewed(a, v, o) || Matches(links, v, o))
    ensures Renewed(a, w, o) || Matches(links, w, o)
  {
    assert o.pid in v.live <==> o.pid in v.live - {pid};
    assert o.pid in w.live <==> o.pid in w.live - {pid};
  }

  lemma CompleteStep(links: map<(string, u32), string>, a: View, v: View, w: View, done: seq<Online>, o: Online,
                     failed: set<u32>, fails: set<u32>)
    requires Progress(a, v, done) && Distinct(done + [o]) && OnlyTouches(v, w, o.pid)
    requires fails == {o.pid} || Renewed(v, w, o) || Matches(links, w, o)
    requires Complete(links, a, v, done, failed)
    ensures Complete(links, a, w, done + [o], failed + fails)
  {
    var all := done + [o];
    PidsSnoc(done, o);
    DistinctPrefix(all, |all|);
    assert all[..|done|] == done;
    forall k | 0 <= k < |all| && all[k].pid !in failed + fails ensures Renewed(a, w, all[k]) || Matches(links, w, all[k]) {
      if k < |done| {
        assert all[k] == done[k] && all[|done|] == o;
        KeptComplete(links, a, v, w, done[k], o.pid);
      } else {
        assert Waiting(a, v, o.pid);
      }
    }
  }

  /** Those who are not held stay so while somebody else is dealt with. */
  lemma StaysFree(v: View, w: View, pid: u32, failed: set<u32>)
    requires OnlyTouches(v, w, pid) && failed !! v.live.Keys && pid !in failed
    ensures failed !! w.live.Keys
  {
    forall q | q in failed ensures q !in w.live {
      assert q in v.live <==> q in v.live - {pid};
      assert q in w.live <==> q in w.live - {pid};
    }
  }

  lemma EndingStart(a: View, v: View, online: seq<Online>, todo: set<u32>)
    requires Progress(a, v, online) && todo == v.live.Keys && Linked(v)
    ensures Ending(a, v, online, todo)
  {
  }

  lemma EndingSkip(a: View, v: View, online: seq<Online>, todo: set<u32>, pid: u32)
    requires Ending(a, v, online, todo) && pid in Pids(online)
    ensures Ending(a, v, online, todo - {pid})
  {
  }

  lemma KeptEnded(a: View, v: View, w: View, q: u32, pid: u32)
    requires OnlyTouches(v, w, pid) && q != pid && Ended(a, v, q)
    ensures Ended(a, w, q)
  {
    assert q in w.live <==> q in w.live - {pid};
    assert q in v.live <==> q in v.live - {pid};
    if q in a.live {
      assert Untouched(v, w, a.live[q].sessionId);
    }
  }

  lemma EndingStep(a: View, v: View, w: View, online: seq<Online>, todo: set<u32>, pid: u32)
    requires Ending(a, v, online, todo) && Linked(a) && Linked(v) && pid in todo && pid !in Pids(online)
    requires OnlyTouches(v, w, pid) && pid !in w.live && w.fate.Keys == v.fate.Keys
    requires pid in v.live ==> v.live[pid].sessionId in w.fate && w.fate[v.live[pid].sessionId].Expired?
    ensures Ending(a, w, online, todo - {pid})
  {
    forall k | 0 <= k < |online| ensures Settled(w, online[k], a.now) && Decided(a, w, online[k]) {
      KeptSettled(a, v, w, online[k], pid);
    }
    forall q | q !in Pids(online)
      ensures if q in todo - {pid} then Waiting(a, w, q) else Ended(a, w, q)
    {
      if q == pid {
        assert Waiting(a, v, q);
      } else if q in todo {
        KeptWaiting(a, v, w, q, pid);
      } else {
        KeptEnded(a, v, w, q, pid);
      }
    }
    KeptGone(a, v, w, pid);
    KeptNew(a, v, w, online, pid, online);
  }

  lemma CompleteKept(links: map<(string, u32), string>, a: View, v: View, w: View, online: seq<Online>, pid: u32,
                     failed: set<u32>)
    requires OnlyTouches(v, w, pid) && pid !in Pids(online) && Complete(links, a, v, online, failed)
    ensures Complete(links, a, w, online, failed)
  {
    forall k | 0 <= k < |online| && online[k].pid !in failed
      ensures Renewed(a, w, online[k]) || Matches(links, w, online[k])
    {
      assert online[k].pid in Pids(online);
      KeptComplete(links, a, v, w, online[k], pid);
    }
  }

  /**
    What a turn of the first loop does to an unchanged record: its session is heartbeated, and unless that goes
    unanswered the record is kept and nothing else is done.
   */
  ghost predicate Beaten(a: View, v: View, o: Online) {
    o.pid in a.live && Unchanged(a.live[o.pid], o) ==>
      var id := a.live[o.pid].sessionId;
      id in v.unanswered ||
      (v.live == a.live && v.fate == a.fate && v.requests == a.requests && v.asked == a.asked && Listed(v, id, a.now))
  }

  /** Entry `k` of a pass is as its record was when the pass began, and that record names `id`. */
  ghost predicate BeatOf(a: View, online: seq<Online>, k: nat, id: SessionId)
    requires k < |online|
  {
    online[k].pid in a.live && Unchanged(a.live[online[k].pid], online[k]) && a.live[online[k].pid].sessionId == id
  }

  ghost predicate AllUnchanged(a: View, online: seq<Online>) {
    forall k :: 0 <= k < |online| ==> online[k].pid in a.live && Unchanged(a.live[online[k].pid], online[k])
  }

  /** `pid` is not to be held as its record says: it is not connected any more, or not like that. */
  ghost predicate Over(a: View, online: seq<Online>, pid: u32) {
    pid in a.live &&
      (pid !in Pids(online) || exists k :: 0 <= k < |online| && online[k].pid == pid && !Unchanged(a.live[pid], online[k]))
  }

  /**
    The calls of a pass. An unchanged record keeps its session, renewed in the pass, unless a heartbeat of it failed; a
    heartbeat fails only of such a session; the core is asked to end exactly the sessions of records that are over; and if
    all entries are unchanged and no heartbeat fails, nothing is registered.
   */
  ghost predicate Calls(a: View, v: View, online: seq<Online>) {
    && (forall k: nat, id :: k < |online| && BeatOf(a, online, k, id) ==>
          id !in a.unanswered && (id in v.unanswered || (Renewed(a, v, online[k]) && Listed(v, id, a.now))))
    && a.unanswered <= v.unanswered && a.asked <= v.asked
    && (forall id :: id in v.unanswered && id !in a.unanswered ==> exists k: nat :: k < |online| && BeatOf(a, online, k, id))
    && (forall pid :: Over(a, online, pid) ==> a.live[pid].sessionId in v.asked)
    && (forall id :: id in v.asked && id !in a.asked ==>
          id in a.fate && a.fate[id].HeldBy? && Over(a, online, a.fate[id].pid))
    && (AllUnchanged(a, online) && v.unanswered == a.unanswered ==> v.requests == a.requests)
  }

  /** A session given up in the pass was held when it began. */
  lemma WasHeld(a: View, v: View, online: seq<Online>, id: SessionId)
    requires Linked(a) && Linked(v) && Reconciled(a, v, online)
    requires id in v.fate && !v.fate[id].HeldBy? && id !in a.unanswered + a.asked
    ensures id in a.fate && a.fate[id].HeldBy? && a.fate[id].pid in a.live && a.live[a.fate[id].pid].sessionId == id
  {
    forall x | x in a.fate && !a.fate[x].HeldBy? ensures Untouched(a, v, x) {
    }
  }

  lemma FailedBeat(a: View, v: View, online: seq<Online>, id: SessionId) returns (k: nat)
    requires Linked(a) && Linked(v) && Reconciled(a, v, online) && id in v.unanswered && id !in a.unanswered
    ensures k < |online| && BeatOf(a, online, k, id)
  {
    CallsStay(a, v, online);
    WasHeld(a, v, online, id);
    var pid := a.fate[id].pid;
    assert pid in Pids(online) || Ended(a, v, pid);
    k :| 0 <= k < |online| && online[k].pid == pid;
    assert Decided(a, v, online[k]);
  }

  lemma AskedOver(a: View, v: View, online: seq<Online>, id: SessionId)
    requires Linked(a) && Linked(v) && Reconciled(a, v, online) && id in v.asked && id !in a.asked
    ensures id in a.fate && a.fate[id].HeldBy? && Over(a, online, a.fate[id].pid)
  {
    CallsStay(a, v, online);
    WasHeld(a, v, online, id);
    var pid := a.fate[id].pid;
    if pid in Pids(online) {
      var k :| 0 <= k < |online| && online[k].pid == pid;
      assert Decided(a, v, online[k]);
    }
  }

  lemma OverAsked(a: View, v: View, online: seq<Online>, pid: u32)
    requires Linked(a) && Linked(v) && Reconciled(a, v, online) && Over(a, online, pid)
    ensures a.live[pid].sessionId in v.asked
  {
    if pid !in Pids(online) {
      assert Ended(a, v, pid);
    } else {
      var k :| 0 <= k < |online| && online[k].pid == pid && !Unchanged(a.live[pid], online[k]);
      assert Decided(a, v, online[k]);
    }
  }

  /** A session given up before the pass stays given up, by the same call. */
  lemma CallsStay(a: View, v: View, online: seq<Online>)
    requires Linked(a) && Linked(v) && Reconciled(a, v, online)
    ensures a.unanswered <= v.unanswered && a.asked <= v.asked
  {
    forall id | id in a.unanswered + a.asked ensures Untouched(a, v, id) {
      assert id in a.fate && !a.fate[id].HeldBy?;
    }
  }

  lemma NothingRegistered(a: View, v: View, online: seq<Online>)
    requires Linked(a) && Linked(v) && Reconciled(a, v, online)
    requires a.fate.Keys == a.requests.Keys && v.fate.Keys == v.requests.Keys
    requires AllUnchanged(a, online) && v.unanswered == a.unanswered
    ensures v.requests == a.requests
  {
    forall k | 0 <= k < |online| ensures Renewed(a, v, online[k]) {
      BeatKept(a, v, online, k, a.live[online[k].pid].sessionId);
    }
    forall id | id in v.fate ensures id in a.fate {
      assert forall k :: 0 <= k < |online| ==> Renewed(a, v, online[k]) && v.live[online[k].pid].sessionId in a.fate;
    }
  }

  lemma BeatKept(a: View, v: View, online: seq<Online>, k: nat, id: SessionId)
    requires Linked(a) && Linked(v) && Reconciled(a, v, online) && k < |online| && BeatOf(a, online, k, id)
    ensures id !in a.unanswered && (id in v.unanswered || (Renewed(a, v, online[k]) && Listed(v, id, a.now)))
  {
    assert Settled(v, online[k], a.now) && Decided(a, v, online[k]);
  }

  lemma PassCalls(a: View, v: View, online: seq<Online>)
    requires Linked(a) && Linked(v) && Reconciled(a, v, online)
    requires a.fate.Keys == a.requests.Keys && v.fate.Keys == v.requests.Keys
    ensures Calls(a, v, online)
  {
    hide Linked, Ending, Renewed, Listed, BeatOf;
    CallsStay(a, v, online);
    forall k: nat, id | k < |online| && BeatOf(a, online, k, id)
      ensures id !in a.unanswered && (id in v.unanswered || (Renewed(a, v, online[k]) && Listed(v, id, a.now)))
    {
      BeatKept(a, v, online, k, id);
    }
    forall id | id in v.unanswered && id !in a.unanswered ensures exists k: nat :: k < |online| && BeatOf(a, online, k, id) {
      var k := FailedBeat(a, v, online, id);
    }
    forall pid | Over(a, online, pid) ensures a.live[pid].sessionId in v.asked {
      OverAsked(a, v, online, pid);
    }
    forall id | id in v.asked && id !in a.asked
      ensures id in a.fate && a.fate[id].HeldBy? && Over(a, online, a.fate[id].pid)
    {
      AskedOver(a, v, online, id);
    }
    if AllUnchanged(a, online) && v.unanswered == a.unanswered {
      NothingRegistered(a, v, online);
    }
  }

  lemma StaysGoneNow(a: View)
    requires Linked(a)
    ensures StaysGone(a, a)
  {
  }

  lemma StaysGoneTrans(a: View, b: View, c: View)
    requires StaysGone(a, b) && StaysGone(b, c)
    ensures StaysGone(a, c)
  {
  }

  ghost function ExpiredIds(fate: map<SessionId, Fate>): set<SessionId> {
    set id | id in fate && fate[id].Expired?
  }

  ghost function DroppedIds(fate: map<SessionId, Fate>): set<SessionId> {
    set id | id in fate && fate[id].Dropped?
  }

  ghost function HeldIds(fate: map<SessionId, Fate>): set<SessionId> {
    set id | id in fate && fate[id].HeldBy?
  }

  lemma PassStaysGone(a: View, b: View, online: seq<Online>)
    requires Reconciled(a, b, online)
    ensures StaysGone(a, b)
  {
    forall id | id in a.fate && !a.fate[id].HeldBy? ensures Untouched(a, b, id) {
    }
  }

  lemma TouchStaysGone(a: View, b: View, pid: u32)
    requires OnlyTouches(a, b, pid)
    ensures StaysGone(a, b)
  {
    forall id | id in a.fate && !a.fate[id].HeldBy? ensures Untouched(a, b, id) {
    }
  }

  lemma ForgetStaysGone(a: View, b: View)
    requires b == a.(listed := b.listed) && StaysGone(a, a)
    ensures StaysGone(a, b)
  {
  }

  /**
    Conservation: the sessions the core returned are the ones held, the ones handed to ExpireSession and the ones
    dropped after a failed heartbeat, each counted once, and no two people share one.
   */
  lemma Conservation(v: View)
    requires Linked(v)
    ensures |v.fate| == |v.live| + |ExpiredIds(v.fate)| + |DroppedIds(v.fate)|
    ensures forall p, q :: p in v.live && q in v.live && p != q ==> v.live[p].sessionId != v.live[q].sessionId
  {
    FatesPartition(v.fate);
    var ids := map pid | pid in v.live :: v.live[pid].sessionId;
    assert ids.Keys == v.live.Keys;
    assert ids.Values == HeldIds(v.fate) by {
      forall id | id in HeldIds(v.fate) ensures id in ids.Values {
        assert ids[v.fate[id].pid] == id;
      }
    }
    OneToOneSize(ids);
  }

  lemma FatesPartition(fate: map<SessionId, Fate>)
    ensures |fate| == |HeldIds(fate)| + |ExpiredIds(fate)| + |DroppedIds(fate)|
  {
    var held, expired, dropped := HeldIds(fate), ExpiredIds(fate), DroppedIds(fate);
    assert fate.Keys == held + expired + dropped;
    assert held !! expired && (held + expired) !! dropped;
  }

  lemma {:induction false} OneToOneSize(m: map<u32, SessionId>)
    requires forall p, q :: p in m && q in m && p != q ==> m[p] != m[q]
    ensures |m.Values| == |m.Keys|
  {
    if m.Keys == {} {
      assert m.Values == {};
    } else {
      var p :| p in m.Keys;
      var rest := m - {p};
      OneToOneSize(rest);
      assert rest.Keys == m.Keys - {p};
      assert m.Values == rest.Values + {m[p]} by {
        forall id | id in m.Values ensures id in rest.Values + {m[p]} {
          var q :| q in m && m[q] == id;
          if q != p {
            assert rest[q] == id;
          }
        }
      }
      assert m[p] !in rest.Values;
    }
  }

  /** `pid` is connected and has a core account. */
  ghost predicate WithAccount(links: map<(string, u32), string>, online: seq<Online>, pid: u32) {
    exists k :: 0 <= k < |online| && online[k].pid == pid && AccountIn(links, online[k].namespace, pid) != ""
  }

  /** Exactly the people with an account are held, and for that account. */
  ghost predicate Converged(links: map<(string, u32), string>, v: View, online: seq<Online>) {
    && (forall pid :: pid in v.live <==> WithAccount(links, online, pid))
    && (forall k :: 0 <= k < |online| && online[k].pid in v.live ==>
          v.live[online[k].pid].accountId == AccountIn(links, online[k].namespace, online[k].pid))
  }

  /** `o`'s record was renewed although the account it was registered for is not the one behind the PID any more. */
  ghost predicate Outdated(links: map<(string, u32), string>, a: View, v: View, o: Online) {
    Renewed(a, v, o) && a.live[o.pid].accountId != AccountIn(links, o.namespace, o.pid)
  }

  /**
    Convergence: after one pass over distinct PIDs in which no lookup and no registration failed, whatever was held and
    whatever the core had lost before, exactly the people with an account are held, for that account, if and only if no
    unchanged record whose heartbeat was answered has lost or changed its account. Whatever is held is as the person is
    connected now and under a lease that outlives the start of the pass by 45 seconds.
   */
  lemma Convergence(links: map<(string, u32), string>, a: View, v: View, online: seq<Online>)
    requires Distinct(online) && Linked(v) && v.live.Keys <= Pids(online)
    requires Reconciled(a, v, online) && Complete(links, a, v, online, {})
    ensures Converged(links, v, online) <==> forall k :: 0 <= k < |online| ==> !Outdated(links, a, v, online[k])
    ensures forall k :: 0 <= k < |online| && online[k].pid in v.live ==>
      && Unchanged(v.live[online[k].pid], online[k])
      && Listed(v, v.live[online[k].pid].sessionId, a.now)
  {
    if forall k :: 0 <= k < |online| ==> !Outdated(links, a, v, online[k]) {
      forall k | 0 <= k < |online| ensures Matches(links, v, online[k]) || Renewed(a, v, online[k]) {
        assert !Outdated(links, a, v, online[k]);
      }
      AllMatch(links, a, v, online);
    }
    forall k | 0 <= k < |online| ensures Settled(v, online[k], a.now) {
    }
  }

  /** `o` is connected as before, but its record names another account than the one behind the PID now. */
  ghost predicate Stale(links: map<(string, u32), string>, a: View, o: Online) {
    o.pid in a.live && Unchanged(a.live[o.pid], o) && a.live[o.pid].accountId != AccountIn(links, o.namespace, o.pid)
  }

  /** Before a pass: no record that it would renew is stale. */
  ghost predicate UpToDate(links: map<(string, u32), string>, a: View, online: seq<Online>) {
    forall k :: 0 <= k < |online| ==> !Stale(links, a, online[k])
  }

  /** A heartbeat of the pass went unanswered. */
  ghost predicate Unanswered(a: View, v: View, o: Online) {
    && o.pid in a.live && Unchanged(a.live[o.pid], o)
    && a.live[o.pid].sessionId in v.fate && v.fate[a.live[o.pid].sessionId].Dropped?
  }

  /**
    What can be told before the pass: it converges if no record it would renew is stale, and, when every heartbeat is
    answered, only then.
   */
  lemma ConvergenceBefore(links: map<(string, u32), string>, a: View, v: View, online: seq<Online>)
    requires Distinct(online) && Linked(v) && v.live.Keys <= Pids(online)
    requires Reconciled(a, v, online) && Complete(links, a, v, online, {})
    ensures UpToDate(links, a, online) ==> Converged(links, v, online)
    ensures (forall k :: 0 <= k < |online| ==> !Unanswered(a, v, online[k])) ==>
      (Converged(links, v, online) <==> UpToDate(links, a, online))
  {
    hide Converged, Complete, Linked, Distinct, Pids;
    Convergence(links, a, v, online);
    forall k | 0 <= k < |online|
      ensures Outdated(links, a, v, online[k]) ==> Stale(links, a, online[k])
      ensures Stale(links, a, online[k]) ==> Outdated(links, a, v, online[k]) || Unanswered(a, v, online[k])
    {
      if online[k].pid in a.live && Unchanged(a.live[online[k].pid], online[k]) {
        RenewedOrDropped(a, v, online, k);
      }
    }
  }

  lemma RenewedOrDropped(a: View, v: View, online: seq<Online>, k: nat)
    requires Reconciled(a, v, online) && k < |online|
    requires online[k].pid in a.live && Unchanged(a.live[online[k].pid], online[k])
    ensures Renewed(a, v, online[k]) || Unanswered(a, v, online[k])
  {
    assert Decided(a, v, online[k]);
  }

  /**
    Whatever a pass does, a stale record outlives it unless its heartbeat goes unanswered: it is renewed without a lookup,
    and the pass has not converged.
   */
  lemma OutdatedRecordStays(links: map<(string, u32), string>, a: View, v: View, online: seq<Online>, k: nat)
    requires Reconciled(a, v, online) && k < |online| && Stale(links, a, online[k])
    ensures Unanswered(a, v, online[k]) || (Renewed(a, v, online[k]) && !Converged(links, v, online))
  {
    RenewedOrDropped(a, v, online, k);
  }

  /** Session 0 is held for `pid`, just renewed, and nothing else has happened. */
  function OneHeld(pid: u32, p: Published): View {
    View(map[pid := p], map[0 := HeldBy(pid)], map[0 := RequestOf(p, pid)], map[0 := 0], {0}, map[], {}, {}, 0)
  }

  /** And such a pass there is: the PID is not linked any more, and the heartbeat is answered. */
  lemma OutdatedPass(o: Online, p: Published)
    requires Unchanged(p, o) && p.accountId != "" && p.sessionId == 0
    ensures
      var a := OneHeld(o.pid, p);
      && Linked(a) && Reconciled(a, a, [o]) && Complete(map[], a, a, [o], {})
      && o.pid in a.live && !WithAccount(map[], [o], o.pid) && !Converged(map[], a, [o])
  {
    var a := OneHeld(o.pid, p);
    assert Pids([o]) == {o.pid} by {
      PidsSnoc([], o);
      assert [] + [o] == [o];
    }
    assert !(o.pid in a.live <==> WithAccount(map[], [o], o.pid));
  }

  lemma AllMatch(links: map<(string, u32), string>, a: View, v: View, online: seq<Online>)
    requires Distinct(online) && v.live.Keys <= Pids(online) && Complete(links, a, v, online, {})
    requires forall k :: 0 <= k < |online| ==> !Outdated(links, a, v, online[k])
    requires Linked(v)
    ensures Converged(links, v, online)
  {
  }
}
