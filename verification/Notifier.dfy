/**
  crossnotify/crossnotify.go and the presence it reports (crosspresence/foreign.go, glue.go): consoles are told, change
  by change, which friends are live on another platform, so that what a console shows keeps up with the core.
 */
module Notifier {
  import opened Basics
  import opened Labels

  /** One notification to one viewer; the line "" means the friend went offline. */
  datatype Change = Change(friend: u32, line: string)

  /** Friend PID to the line last sent, or to be shown. */
  type Lines = map<u32, string>

  /** Lines come from Description, so "" is free to mean offline. */
  ghost predicate ProperLines(m: Lines) {
    forall f :: f in m ==> m[f] != ""
  }

  /** Go's zero value for a missing key. */
  function LineOf(m: Lines, f: u32): string {
    if f in m then m[f] else ""
  }

  /** The viewer has something to be told about `f`: a new or changed line, or that they left and are not connected here. */
  predicate Differs(prev: Lines, now: Lines, connected: set<u32>, f: u32) {
    if f in now then LineOf(prev, f) != now[f] else f in prev && f !in connected
  }

  /** The notifications that are due when the answer for a viewer goes from `prev` to `now`. */
  ghost function Patch(prev: Lines, now: Lines, connected: set<u32>): Lines {
    map f | f in now.Keys + prev.Keys && Differs(prev, now, connected, f) :: LineOf(now, f)
  }

  /** `out` lists the entries of `patch`, each friend once, in some order. */
  ghost predicate Lists(out: seq<Change>, patch: Lines) {
    && (forall i :: 0 <= i < |out| ==> out[i].friend in patch && patch[out[i].friend] == out[i].line)
    && (forall i, j :: 0 <= i < j < |out| ==> out[i].friend != out[j].friend)
    && (forall f :: f in patch ==> exists i :: 0 <= i < |out| && out[i].friend == f)
  }

  /** Diff: two loops over maps whose iteration order Go leaves open. */
  method Diff(prev: Lines, now: Lines, connected: set<u32>) returns (out: seq<Change>)
    ensures Lists(out, Patch(prev, now, connected))
  {
    hide Lists;
    out := [];
    var todo := now.Keys;
    ghost var patch: Lines := map[];
    ListsNothing();
    while todo != {}
      invariant todo <= now.Keys
      invariant forall f :: f in patch ==> patch[f] == LineOf(now, f)
      invariant forall f :: f in patch <==> f in now && f !in todo && Differs(prev, now, connected, f)
      invariant Lists(out, patch)
      decreases |todo|
    {
      var f :| f in todo;
      todo := todo - {f};
      if LineOf(prev, f) != now[f] {
        ListsMore(out, patch, f, now[f]);
        out := out + [Change(f, now[f])];
        patch := patch[f := now[f]];
      }
    }
    todo := prev.Keys;
    while todo != {}
      invariant todo <= prev.Keys
      invariant forall f :: f in patch ==> patch[f] == LineOf(now, f)
      invariant forall f :: f in patch <==> (f in now || (f in prev && f !in todo)) && Differs(prev, now, connected, f)
      invariant Lists(out, patch)
      decreases |todo|
    {
      var f :| f in todo;
      todo := todo - {f};
      if f !in now && f !in connected {
        ListsMore(out, patch, f, "");
        out := out + [Change(f, "")];
        patch := patch[f := ""];
      }
    }
    assert patch == Patch(prev, now, connected);
  }

  lemma ListsNothing()
    ensures Lists([], map[])
  {
  }

  lemma ListsMore(out: seq<Change>, patch: Lines, f: u32, line: string)
    requires Lists(out, patch) && f !in patch
    ensures Lists(out + [Change(f, line)], patch[f := line])
  {
    var all := out + [Change(f, line)];
    var more := patch[f := line];
    forall g | g in more ensures exists i :: 0 <= i < |all| && all[i].friend == g {
      if g == f {
        assert all[|out|].friend == f;
      } else {
        var i :| 0 <= i < |out| && out[i].friend == g;
        assert all[i].friend == g;
      }
    }
  }

  // --- what a console shows ---

  /** A friend on a console's list: offline, live elsewhere, or connected here and shown by their own presence. */
  datatype Shown = Offline | Foreign(line: string) | Here

  type Screen = map<u32, Shown>

  function ShownAt(screen: Screen, f: u32): Shown {
    if f in screen then screen[f] else Offline
  }

  function ShownFor(line: string): Shown {
    if line == "" then Offline else Foreign(line)
  }

  function Apply(screen: Screen, out: seq<Change>): Screen {
    if out == [] then screen
    else
      var c := out[|out| - 1];
      Apply(screen, out[..|out| - 1])[c.friend := ShownFor(c.line)]
  }

  /** Applying the listed changes, in whatever order, sets exactly the patched friends. */
  lemma {:induction false} ApplyPrefix(screen: Screen, out: seq<Change>, patch: Lines, n: nat, f: u32)
    requires Lists(out, patch) && n <= |out|
    ensures ShownAt(Apply(screen, out[..n]), f) ==
      if exists i :: 0 <= i < n && out[i].friend == f then ShownFor(patch[f]) else ShownAt(screen, f)
  {
    if 0 < n {
      assert out[..n][..n - 1] == out[..n - 1];
      ApplyPrefix(screen, out, patch, n - 1, f);
      if out[n - 1].friend == f {
        assert forall i :: 0 <= i < n - 1 ==> out[i].friend != f;
      }
    }
  }

  lemma ApplyLists(screen: Screen, out: seq<Change>, patch: Lines, f: u32)
    requires Lists(out, patch)
    ensures ShownAt(Apply(screen, out), f) == if f in patch then ShownFor(patch[f]) else ShownAt(screen, f)
  {
    assert out[..|out|] == out;
    ApplyPrefix(screen, out, patch, |out|, f);
  }

  /** The screen shows `m`, for the friends in question. */
  ghost predicate Shows(screen: Screen, m: Lines, f: u32) {
    ShownAt(screen, f) == ShownFor(LineOf(m, f))
  }

  /**
    The patch is order-free and complete: applied in any order to a screen showing `prev` it shows `now`, except that
    friends who left the set and are connected here are left as they were.
   */
  lemma DiffApplies(screen: Screen, prev: Lines, now: Lines, connected: set<u32>, out: seq<Change>, f: u32)
    requires ProperLines(prev) && ProperLines(now)
    requires Lists(out, Patch(prev, now, connected)) && Shows(screen, prev, f)
    ensures if f in prev && f !in now && f in connected
            then ShownAt(Apply(screen, out), f) == ShownAt(screen, f)
            else Shows(Apply(screen, out), now, f)
  {
    ApplyLists(screen, out, Patch(prev, now, connected), f);
  }

  /** It is minimal: any changes that bring a screen from `prev` to `now` must mention every friend it mentions. */
  lemma DiffMinimal(screen: Screen, prev: Lines, now: Lines, connected: set<u32>, other: seq<Change>, f: u32)
    requires ProperLines(prev) && ProperLines(now)
    requires f in Patch(prev, now, connected)
    requires Shows(screen, prev, f) && Shows(Apply(screen, other), now, f)
    ensures exists i :: 0 <= i < |other| && other[i].friend == f
  {
    if forall i :: 0 <= i < |other| ==> other[i].friend != f {
      ApplyElsewhere(screen, other, f);
    }
  }

  lemma {:induction false} ApplyElsewhere(screen: Screen, out: seq<Change>, f: u32)
    requires forall i :: 0 <= i < |out| ==> out[i].friend != f
    ensures ShownAt(Apply(screen, out), f) == ShownAt(screen, f)
  {
    if out != [] {
      ApplyElsewhere(screen, out[..|out| - 1], f);
    }
  }

  /** Nothing is sent when nothing changed, and only then. */
  lemma DiffSame(prev: Lines, now: Lines, connected: set<u32>, out: seq<Change>)
    requires ProperLines(prev) && ProperLines(now) && Lists(out, Patch(prev, now, connected))
    ensures out == [] <==>
      && (forall f :: f in now ==> f in prev && prev[f] == now[f])
      && (forall f :: f in prev && f !in now ==> f in connected)
  {
    var patch := Patch(prev, now, connected);
    if out == [] {
      assert patch == map[] by {
        assert forall f :: f !in patch;
      }
      forall f | f in now ensures f in prev && prev[f] == now[f] {
        assert f !in patch;
      }
      forall f | f in prev && f !in now ensures f in connected {
        assert f !in patch;
      }
    } else if forall f :: f in now ==> f in prev && prev[f] == now[f] {
      assert out[0].friend in patch;
    }
  }

  // --- one viewer over a run ---

  /**
    One viewer that stays connected. `screen` is what its console shows: the list it fetched, the changes of each tick,
    and the connects and disconnects here, which announce themselves. `missed` is history: the friends whose line on the
    console was not what the notifier had sent when they disconnected here or the list was fetched, and whose sent line
    has not changed since. Since the last tick, `moved` are the friends that connected or disconnected here, and `fetched`
    those not connected here for whom the list fetched last was not what had been sent.
   */
  datatype Viewer = Viewer(
    sent: Lines, screen: Screen, connected: set<u32>, missed: set<u32>, moved: set<u32>, fetched: set<u32>)

  datatype Event =
    | Connects(f: u32)
    | Disconnects(f: u32)
    | Fetches(shown: Lines)
    | Ticks(now: Lines, out: seq<Change>)

  ghost predicate Possible(v: Viewer, e: Event) {
    match e
    case Connects(f) => f !in v.connected
    case Disconnects(f) => f in v.connected
    case Fetches(shown) => ProperLines(shown) && shown.Keys !! v.connected
    case Ticks(now, out) =>
      && ProperLines(now) && now.Keys !! v.connected
      && Lists(out, Patch(v.sent, now, v.connected))
  }

  /** The friend list as a console gets it. */
  ghost function Fetched(shown: Lines, connected: set<u32>): Screen {
    map f | f in shown.Keys + connected :: if f in connected then Here else ShownFor(LineOf(shown, f))
  }

  /** The friends not connected here for whom two answers differ. */
  ghost function Differing(a: Lines, b: Lines, connected: set<u32>): set<u32> {
    set f | f in a.Keys + b.Keys && f !in connected && LineOf(a, f) != LineOf(b, f)
  }

  ghost function After(v: Viewer, e: Event): Viewer {
    match e
    case Connects(f) =>
      v.(screen := v.screen[f := Here], connected := v.connected + {f}, missed := v.missed - {f}, moved := v.moved + {f},
         fetched := v.fetched - {f})
    case Disconnects(f) =>
      v.(screen := v.screen[f := Offline], connected := v.connected - {f},
         missed := v.missed + (if f in v.sent then {f} else {}), moved := v.moved + {f})
    case Fetches(shown) =>
      v.(screen := Fetched(shown, v.connected), missed := Differing(shown, v.sent, v.connected),
         fetched := Differing(shown, v.sent, v.connected))
    case Ticks(now, out) =>
      v.(sent := now, screen := Apply(v.screen, out),
         missed := (set f | f in v.missed && LineOf(now, f) == LineOf(v.sent, f)), moved := {}, fetched := {})
  }

  /** A viewer that has just signed in; `sent` may be left over from a connection that ended since the last tick. */
  ghost predicate SignedIn(v: Viewer) {
    && ProperLines(v.sent) && v.moved == {} && v.fetched == {}
    && (forall f :: f !in v.connected ==> ShownAt(v.screen, f) == Offline)
    && v.missed == v.sent.Keys - v.connected
  }

  ghost function RunOf(v: Viewer, events: seq<Event>): Option<Viewer> {
    if events == [] then Some(v)
    else
      var before := RunOf(v, events[..|events| - 1]);
      if before.Some? && Possible(before.value, events[|events| - 1])
      then Some(After(before.value, events[|events| - 1]))
      else None
  }

  /** For every friend not connected here, the screen shows what was sent last. */
  ghost predicate InStep(v: Viewer) {
    forall f :: f !in v.connected ==> Shows(v.screen, v.sent, f)
  }

  /** `missed` names exactly the friends that are shown wrong. */
  ghost predicate Inv(v: Viewer) {
    && ProperLines(v.sent) && v.missed !! v.connected
    && (forall f :: f !in v.connected ==> (Shows(v.screen, v.sent, f) <==> f !in v.missed))
  }

  lemma InvConnects(v: Viewer, f: u32)
    requires Inv(v)
    ensures Inv(After(v, Connects(f)))
  {
    var w := After(v, Connects(f));
    assert forall g :: g != f ==> ShownAt(w.screen, g) == ShownAt(v.screen, g);
  }

  lemma InvDisconnects(v: Viewer, f: u32)
    requires Inv(v) && f in v.connected
    ensures Inv(After(v, Disconnects(f)))
  {
    var w := After(v, Disconnects(f));
    assert forall g :: g != f ==> ShownAt(w.screen, g) == ShownAt(v.screen, g);
  }

  lemma InvFetches(v: Viewer, shown: Lines)
    requires Inv(v) && ProperLines(shown)
    ensures Inv(After(v, Fetches(shown)))
  {
    var w := After(v, Fetches(shown));
    forall f | f !in v.connected ensures Shows(w.screen, w.sent, f) <==> f !in w.missed {
      assert ShownAt(w.screen, f) == ShownFor(LineOf(shown, f));
    }
  }

  /** A tick corrects a friend that is shown wrong exactly when it has something to send about them. */
  lemma InvTicks(v: Viewer, now: Lines, out: seq<Change>)
    requires Inv(v) && Possible(v, Ticks(now, out))
    ensures Inv(After(v, Ticks(now, out)))
  {
    var w := After(v, Ticks(now, out));
    forall f | f !in v.connected ensures Shows(w.screen, now, f) <==> f !in w.missed {
      ApplyLists(v.screen, out, Patch(v.sent, now, v.connected), f);
    }
  }

  lemma InvAfter(v: Viewer, e: Event)
    requires Inv(v) && Possible(v, e)
    ensures Inv(After(v, e))
  {
    match e
    case Connects(f) => InvConnects(v, f);
    case Disconnects(f) => InvDisconnects(v, f);
    case Fetches(shown) => InvFetches(v, shown);
    case Ticks(now, out) => InvTicks(v, now, out);
  }

  /** At every point of every run, a friend not connected here is shown wrong if and only if they are in `missed`. */
  lemma {:induction false} MissedIsExact(v: Viewer, events: seq<Event>)
    requires SignedIn(v) && RunOf(v, events).Some?
    ensures Inv(RunOf(v, events).value)
  {
    if events != [] {
      hide Possible, After;
      MissedIsExact(v, events[..|events| - 1]);
      InvAfter(RunOf(v, events[..|events| - 1]).value, events[|events| - 1]);
    }
  }

  /**
    Over any run whatever, a tick leaves the console in step with the core's answer if and only if that answer differs
    from what was sent before for every friend whose line the console had missed.
   */
  lemma TickInStepIff(v: Viewer, events: seq<Event>, now: Lines, out: seq<Change>)
    requires SignedIn(v) && RunOf(v, events + [Ticks(now, out)]).Some?
    ensures RunOf(v, events).Some?
    ensures
      var before, w := RunOf(v, events).value, RunOf(v, events + [Ticks(now, out)]).value;
      && w.sent == now
      && (InStep(w) <==> forall f :: f in before.missed ==> LineOf(now, f) != LineOf(before.sent, f))
  {
    var all := events + [Ticks(now, out)];
    assert all[..|events|] == events;
    MissedIsExact(v, events);
    MissedIsExact(v, all);
    var before, w := RunOf(v, events).value, RunOf(v, all).value;
    forall f | f in before.missed ensures LineOf(now, f) == LineOf(before.sent, f) <==> f in w.missed {
    }
  }

  /**
    At most one connect or disconnect of each friend between two ticks, and whoever's line on a fetched list was not what
    had been sent has, at the next tick, another line than that: after sign-in, when nothing has been sent, whoever the
    list showed live is still live.
   */
  ghost predicate Calm(v: Viewer, e: Event) {
    match e
    case Connects(f) => f !in v.moved
    case Disconnects(f) => f !in v.moved
    case Fetches(_) => true
    case Ticks(now, _) => forall f :: f in v.fetched ==> LineOf(now, f) != LineOf(v.sent, f)
  }

  ghost predicate CalmRun(v: Viewer, events: seq<Event>) {
    events == [] ||
    (CalmRun(v, events[..|events| - 1]) && RunOf(v, events[..|events| - 1]).Some?
     && Calm(RunOf(v, events[..|events| - 1]).value, events[|events| - 1]))
  }

  /** Only fetched lists can be wrong, and whoever has been connected here since before the last tick was not sent. */
  ghost predicate Quiet(v: Viewer) {
    v.missed <= v.fetched && forall f :: f in v.connected && f !in v.moved ==> f !in v.sent
  }

  lemma {:induction false} CalmQuiet(v: Viewer, events: seq<Event>)
    requires SignedIn(v) && v.sent == map[] && RunOf(v, events).Some? && CalmRun(v, events)
    ensures Quiet(RunOf(v, events).value)
  {
    if events != [] {
      CalmQuiet(v, events[..|events| - 1]);
      QuietAfter(RunOf(v, events[..|events| - 1]).value, events[|events| - 1]);
    }
  }

  lemma QuietAfter(v: Viewer, e: Event)
    requires Quiet(v) && Possible(v, e) && Calm(v, e)
    ensures Quiet(After(v, e))
  {
  }

  /**
    Over any calm run, sign-in included, the console of a viewer that stays connected shows, after every tick, the core's
    answer for every friend not connected here.
   */
  lemma NotifierKeepsUp(v: Viewer, events: seq<Event>, now: Lines, out: seq<Change>)
    requires SignedIn(v) && v.sent == map[]
    requires RunOf(v, events + [Ticks(now, out)]).Some? && CalmRun(v, events + [Ticks(now, out)])
    ensures
      var w := RunOf(v, events + [Ticks(now, out)]).value;
      && w.sent == now
      && (forall f :: f !in w.connected ==> Shows(w.screen, now, f))
  {
    assert (events + [Ticks(now, out)])[..|events|] == events;
    CalmQuiet(v, events);
    TickInStepIff(v, events, now, out);
  }

  // --- what can go wrong ---

  /** `n` ticks that all bring the same answer. */
  ghost function TicksOf(now: Lines, n: nat): seq<Event> {
    if n == 0 then [] else TicksOf(now, n - 1) + [Ticks(now, [])]
  }

  /** A friend who is shown wrong stays so for as many ticks as the core's answer stays the same. */
  lemma {:induction false} MissedStays(v: Viewer, n: nat)
    requires Inv(v) && v.sent.Keys !! v.connected
    ensures RunOf(v, TicksOf(v.sent, n)).Some?
    ensures RunOf(v, TicksOf(v.sent, n)).value.(moved := v.moved, fetched := v.fetched) == v
  {
    if 0 < n {
      MissedStays(v, n - 1);
      var ticks := TicksOf(v.sent, n - 1);
      TickOfTheSame(RunOf(v, ticks).value);
      hide Possible, After, Inv;
      RunSnoc(v, ticks, Ticks(v.sent, []));
    }
  }

  lemma RunSnoc(v: Viewer, events: seq<Event>, e: Event)
    ensures RunOf(v, events + [e]) ==
      if RunOf(v, events).Some? && Possible(RunOf(v, events).value, e) then Some(After(RunOf(v, events).value, e)) else None
  {
    assert (events + [e])[..|events|] == events;
  }

  lemma TickOfTheSame(v: Viewer)
    requires ProperLines(v.sent) && v.sent.Keys !! v.connected
    ensures Possible(v, Ticks(v.sent, [])) && After(v, Ticks(v.sent, [])) == v.(moved := {}, fetched := {})
  {
    NothingToSend(v.sent, v.connected);
    assert (set f | f in v.missed && LineOf(v.sent, f) == LineOf(v.sent, f)) == v.missed;
  }

  lemma NothingToSend(m: Lines, connected: set<u32>)
    requires ProperLines(m)
    ensures Lists([], Patch(m, m, connected))
  {
    assert Patch(m, m, connected) == map[];
    ListsNothing();
  }

  /**
    A friend who connects and leaves between two ticks is shown offline although they are live elsewhere, at the next
    tick and at every later one that brings the same line.
   */
  lemma BlinkIsMissed(v: Viewer, f: u32, n: nat)
    requires Inv(v) && InStep(v) && v.sent.Keys !! v.connected && f in v.sent
    ensures
      var w := After(After(v, Connects(f)), Disconnects(f));
      && Possible(v, Connects(f)) && Possible(After(v, Connects(f)), Disconnects(f))
      && RunOf(w, TicksOf(v.sent, n)).Some?
      && ShownAt(RunOf(w, TicksOf(v.sent, n)).value.screen, f) == Offline
  {
    InvConnects(v, f);
    InvDisconnects(After(v, Connects(f)), f);
    var w := After(After(v, Connects(f)), Disconnects(f));
    MissedStays(w, n);
  }

  /** A friend shown live on the list fetched at sign-in who is gone by the first tick is shown live from then on. */
  lemma GoneBeforeFirstTick(v: Viewer, f: u32, line: string, n: nat)
    requires SignedIn(v) && v.sent == map[] && v.connected == {} && line != ""
    ensures
      var w := After(v, Fetches(map[f := line]));
      && Possible(v, Fetches(map[f := line])) && RunOf(w, TicksOf(map[], n)).Some?
      && ShownAt(RunOf(w, TicksOf(map[], n)).value.screen, f) == Foreign(line)
  {
    InvFetches(v, map[f := line]);
    MissedStays(After(v, Fetches(map[f := line])), n);
  }

  // --- where the lines come from ---

  const PRESENCE_CAP: nat := 200

  datatype Presence = Presence(accountId: string, live: Live)

  /** `reply` names each asked account that is live, as the core has it, and nobody else. */
  ghost predicate IsReply(reply: seq<Presence>, ids: seq<string>, registry: map<string, Live>) {
    && (forall i :: 0 <= i < |reply| ==>
          reply[i].accountId in ids && reply[i].accountId in registry && reply[i].live == registry[reply[i].accountId])
    && (forall a :: a in ids && a in registry ==> exists i :: 0 <= i < |reply| && reply[i].accountId == a)
  }

  function FriendsOf(friends: map<u32, map<u32, string>>, v: u32): map<u32, string> {
    if v in friends then friends[v] else map[]
  }

  /** The core: one live session an account, and the friends of each viewer. `failures` counts the calls that failed. */
  class PresenceCore {
    var registry: map<string, Live>
    var friends: map<u32, map<u32, string>>   // viewer PID -> friend PID -> account
    ghost var failures: nat

    constructor (registry: map<string, Live>, friends: map<u32, map<u32, string>>)
      ensures this.registry == registry && this.friends == friends && failures == 0
    {
      this.registry, this.friends, failures := registry, friends, 0;
    }

    method FriendAccountsByPID(viewer: u32) returns (byPid: Option<map<u32, string>>)
      modifies this`failures
      ensures failures == old(failures) + if byPid.None? then 1 else 0
      ensures byPid.Some? ==> byPid.value == FriendsOf(friends, viewer)
    {
      var fails: bool := *;
      if fails {
        failures := failures + 1;
        return None;
      }
      return Some(FriendsOf(friends, viewer));
    }

    method GetPresence(ids: seq<string>) returns (reply: Option<seq<Presence>>)
      modifies this`failures
      ensures failures == old(failures) + if reply.None? then 1 else 0
      ensures reply.Some? ==> IsReply(reply.value, ids, registry)
    {
      var fails: bool := *;
      if fails {
        failures := failures + 1;
        return None;
      }
      var ps: seq<Presence> := [];
      for i := 0 to |ids|
        invariant IsReply(ps, ids[..i], registry)
      {
        assert ids[..i + 1] == ids[..i] + [ids[i]];
        ghost var before := ps;
        if ids[i] in registry {
          ps := ps + [Presence(ids[i], registry[ids[i]])];
          assert ps[|before|].accountId == ids[i];
        }
        assert forall k :: 0 <= k < |before| ==> ps[k] == before[k];
      }
      assert ids[..|ids|] == ids;
      return Some(ps);
    }
  }

  /** `a` is live on another platform than the viewer's. */
  predicate IsForeign(registry: map<string, Live>, namespace: string, a: string) {
    a in registry && !EqualFold(registry[a].namespace, namespace)
  }

  /** The accounts the core is asked about: the first 200. */
  function FirstAsked(accountIds: seq<string>): (ids: seq<string>)
    ensures |ids| == if |accountIds| <= 200 then |accountIds| else 200
  {
    if PRESENCE_CAP < |accountIds| then accountIds[..PRESENCE_CAP] else accountIds
  }

  /** Foreign: which of the first 200 accounts are live elsewhere; nobody if the core does not answer. */
  method ForeignAccounts(core: PresenceCore, namespace: string, accountIds: seq<string>) returns (out: map<string, Live>)
    modifies core`failures
    ensures old(core.failures) <= core.failures <= old(core.failures) + 1
    ensures core.failures > old(core.failures) ==> out == map[]
    ensures forall a :: a in out ==>
      a in FirstAsked(accountIds) && IsForeign(core.registry, namespace, a) && out[a] == core.registry[a]
    ensures core.failures == old(core.failures) ==>
      forall a :: a in FirstAsked(accountIds) && IsForeign(core.registry, namespace, a) ==> a in out
  {
    out := map[];
    if accountIds == [] {
      return;
    }
    var ids := FirstAsked(accountIds);
    var reply := core.GetPresence(ids);
    if reply.None? {
      return;
    }
    var ps := reply.value;
    for i := 0 to |ps|
      invariant forall a :: a in out ==> a in ids && IsForeign(core.registry, namespace, a) && out[a] == core.registry[a]
      invariant forall k :: 0 <= k < i && IsForeign(core.registry, namespace, ps[k].accountId) ==> ps[k].accountId in out
    {
      if !EqualFold(ps[i].live.namespace, namespace) {
        out := out[ps[i].accountId := ps[i].live];
      }
    }
  }

  /** The answer the console should get: each friend live elsewhere and not connected here, with the line about them. */
  ghost function Truth(
    registry: map<string, Live>, namespace: string, byPid: map<u32, string>, connected: set<u32>,
    names: (string, string) -> string): Lines
  {
    map f | f in byPid && f !in connected && IsForeign(registry, namespace, byPid[f]) :: LineFor(registry[byPid[f]], names)
  }

  function LineFor(l: Live, names: (string, string) -> string): (line: string)
    ensures line != ""
  {
    Description(l, names(l.namespace, l.titleId))
  }

  /** The friends the core is asked about: those not connected here. */
  ghost function Asked(byPid: map<u32, string>, connected: set<u32>): set<u32> {
    set f | f in byPid && f !in connected
  }

  /** How many friends of one viewer the core is not asked about, which takes only so many at once. */
  ghost function Beyond(byPid: map<u32, string>, connected: set<u32>): nat {
    if |Asked(byPid, connected)| <= 200 then 0 else |Asked(byPid, connected)| - 200
  }

  /** `out` says nothing but the truth, leaves out no more friends than lie beyond the cap, and says nothing if it failed. */
  ghost predicate Answers(out: Lines, truth: Lines, beyond: nat, failed: bool) {
    && (forall f :: f in out ==> f in truth && out[f] == truth[f])
    && (failed ==> out == map[])
    && (!failed ==> |truth.Keys - out.Keys| <= beyond)
  }

  /** With nobody beyond the cap, the answer is the whole truth. */
  lemma WholeTruth(out: Lines, truth: Lines)
    requires Answers(out, truth, 0, false)
    ensures out == truth
  {
    assert truth.Keys - out.Keys == {};
    forall f | f in truth ensures f in out {
      assert f in truth.Keys - out.Keys || f in out;
    }
  }

  /** ForeignFor. */
  method ForeignFor(core: PresenceCore, namespace: string, byPid: map<u32, string>, connected: set<u32>,
                    names: (string, string) -> string)
    returns (out: Lines)
    modifies core`failures
    ensures old(core.failures) <= core.failures <= old(core.failures) + 1
    ensures Answers(out, Truth(core.registry, namespace, byPid, connected, names),
                    Beyond(byPid, connected), core.failures > old(core.failures))
  {
    hide LineFor, IsForeign, FirstAsked;
    var accounts, order := AccountsToAsk(byPid, connected);
    var live := ForeignAccounts(core, namespace, accounts);
    out := LinesOf(live, byPid, connected, names);
    if core.failures == old(core.failures) {
      FewMissed(core.registry, namespace, byPid, connected, names, accounts, order, live, out);
    }
  }

  lemma NobodyToAnswer(registry: map<string, Live>, namespace: string, connected: set<u32>,
                       names: (string, string) -> string)
    ensures Truth(registry, namespace, map[], connected, names) == map[]
  {
  }

  /** Whoever is missing stands behind the first 200. */
  lemma FewMissed(registry: map<string, Live>, namespace: string, byPid: map<u32, string>, connected: set<u32>,
                  names: (string, string) -> string, accounts: seq<string>, order: seq<u32>,
                  live: map<string, Live>, out: Lines)
    requires |accounts| == |order| == |Asked(byPid, connected)|
    requires forall f :: f in Asked(byPid, connected) ==> f in order
    requires forall i :: 0 <= i < |order| ==> order[i] in byPid && accounts[i] == byPid[order[i]]
    requires forall a :: a in FirstAsked(accounts) && IsForeign(registry, namespace, a) ==> a in live
    requires forall f :: f in out <==> f in byPid && f !in connected && byPid[f] in live
    ensures |Truth(registry, namespace, byPid, connected, names).Keys - out.Keys| <= Beyond(byPid, connected)
  {
    hide LineFor, IsForeign;
    var missed := Truth(registry, namespace, byPid, connected, names).Keys - out.Keys;
    var behind := if |order| <= 200 then [] else order[200..];
    assert forall i :: 0 <= i < |FirstAsked(accounts)| ==> FirstAsked(accounts)[i] == accounts[i];
    forall f | f in missed ensures f in behind {
      assert f in Asked(byPid, connected);
      var i :| 0 <= i < |order| && order[i] == f;
      assert 200 <= i && order[200..][i - 200] == f;
    }
    FewInSeq(missed, behind);
  }

  lemma {:induction false} FewInSeq(fs: set<u32>, s: seq<u32>)
    requires forall f :: f in fs ==> f in s
    ensures |fs| <= |s|
  {
    if s == [] {
      assert fs == {};
    } else {
      var f := s[|s| - 1];
      FewInSeq(fs - {f}, s[..|s| - 1]);
    }
  }

  /** ForeignFor's first loop. */
  method AccountsToAsk(byPid: map<u32, string>, connected: set<u32>) returns (accounts: seq<string>, ghost order: seq<u32>)
    ensures |accounts| == |order| == |Asked(byPid, connected)|
    ensures forall f :: f in Asked(byPid, connected) <==> f in order
    ensures forall i :: 0 <= i < |order| ==> order[i] in byPid && accounts[i] == byPid[order[i]]
    ensures forall a :: a in accounts <==> exists f :: f in Asked(byPid, connected) && byPid[f] == a
  {
    accounts, order := [], [];
    var todo := byPid.Keys;
    ghost var done: set<u32> := {};
    while todo != {}
      invariant todo <= byPid.Keys && |accounts| == |order| == |done|
      invariant forall f :: f in done <==> f in byPid && f !in todo && f !in connected
      invariant forall f :: f in done <==> f in order
      invariant forall i :: 0 <= i < |order| ==> order[i] in byPid && accounts[i] == byPid[order[i]]
      decreases |todo|
    {
      var f :| f in todo;
      todo := todo - {f};
      if f !in connected {
        accounts, order := accounts + [byPid[f]], order + [f];
        done := done + {f};
      }
    }
    assert done == Asked(byPid, connected);
  }

  /** ForeignFor's second loop. */
  method LinesOf(live: map<string, Live>, byPid: map<u32, string>, connected: set<u32>, names: (string, string) -> string)
    returns (out: Lines)
    ensures forall f :: f in out <==> f in byPid && f !in connected && byPid[f] in live
    ensures forall f :: f in out ==> out[f] == LineFor(live[byPid[f]], names)
  {
    out := map[];
    var todo := byPid.Keys;
    while todo != {}
      invariant todo <= byPid.Keys
      invariant forall f :: f in out <==> f in byPid && f !in todo && f !in connected && byPid[f] in live
      invariant forall f :: f in out ==> out[f] == LineFor(live[byPid[f]], names)
      decreases |todo|
    {
      var f :| f in todo;
      todo := todo - {f};
      if byPid[f] in live && f !in connected {
        out := out[f := LineFor(live[byPid[f]], names)];
      }
    }
  }

  /** A console connected here, with the platform it is on. */
  datatype Console = Console(pid: u32, namespace: string)

  /** The core's answers, and what the notifier keeps: what each viewer was last sent, told, and not given an answer for. */
  datatype View = View(registry: map<string, Live>, friends: map<u32, map<u32, string>>,
                       sent: map<u32, Lines>, told: map<u32, seq<Change>>, unanswered: set<u32>)

  function SentTo(sent: map<u32, Lines>, v: u32): Lines {
    if v in sent then sent[v] else map[]
  }

  /** What the core would have `c` be told. */
  ghost function Answer(v: View, names: (string, string) -> string, c: Console, connected: set<u32>): (truth: Lines)
    ensures ProperLines(truth) && truth.Keys !! connected
  {
    Truth(v.registry, c.namespace, FriendsOf(v.friends, c.pid), connected, names)
  }

  /** How many of `c`'s friends the core is not asked about. */
  ghost function LeftOut(v: View, c: Console, connected: set<u32>): nat {
    Beyond(FriendsOf(v.friends, c.pid), connected)
  }

  /** `now` is the answer for a viewer, as far as there was one, and `out` what changed in it since `before`. */
  ghost predicate Due(now: Lines, out: seq<Change>, truth: Lines, beyond: nat, failed: bool, before: Lines,
                      connected: set<u32>)
  {
    Answers(now, truth, beyond, failed) && Lists(out, Patch(before, now, connected))
  }

  /** The viewer was told exactly what changed since `before` in the core's answer. */
  ghost predicate Told(v: View, names: (string, string) -> string, c: Console, before: Lines, connected: set<u32>) {
    && c.pid in v.sent && c.pid in v.told
    && Due(v.sent[c.pid], v.told[c.pid], Answer(v, names, c, connected), LeftOut(v, c, connected),
           c.pid in v.unanswered, before, connected)
  }

  /** Between two views only what concerns `pid` differs. */
  ghost predicate OnlyFor(v: View, w: View, pid: u32) {
    && w.registry == v.registry && w.friends == v.friends
    && w.sent - {pid} == v.sent - {pid} && w.told - {pid} == v.told - {pid}
    && w.unanswered - {pid} == v.unanswered - {pid}
  }

  lemma OthersStayTold(v: View, w: View, pid: u32, names: (string, string) -> string, c: Console, before: Lines,
                       connected: set<u32>)
    requires OnlyFor(v, w, pid) && c.pid != pid && Told(v, names, c, before, connected)
    ensures Told(w, names, c, before, connected)
  {
    SameAnswer(v, w, names, c, connected);
    hide Due, Answer, LeftOut;
    assert c.pid in (v.sent - {pid}) && c.pid in (v.told - {pid});
    assert c.pid in v.unanswered <==> c.pid in v.unanswered - {pid};
    assert c.pid in w.unanswered <==> c.pid in w.unanswered - {pid};
  }

  /** What a tick does to a viewer is a tick of the viewer's run. */
  lemma TickIsAStep(v: View, names: (string, string) -> string, c: Console, viewer: Viewer)
    requires Told(v, names, c, viewer.sent, viewer.connected)
    ensures Possible(viewer, Ticks(v.sent[c.pid], v.told[c.pid]))
    ensures After(viewer, Ticks(v.sent[c.pid], v.told[c.pid])).sent == v.sent[c.pid]
  {
    hide Answer, LeftOut, Lists, Patch;
    var truth := Answer(v, names, c, viewer.connected);
    assert v.sent[c.pid].Keys <= truth.Keys;
  }

  /** The view once `pid` has been told. */
  ghost function Noted(v: View, pid: u32, now: Lines, out: seq<Change>, failed: bool): View {
    v.(sent := v.sent[pid := now], told := v.told[pid := out],
       unanswered := v.unanswered + if failed then {pid} else {})
  }

  lemma NotedOnly(v: View, pid: u32, now: Lines, out: seq<Change>, failed: bool)
    ensures OnlyFor(v, Noted(v, pid, now, out, failed), pid)
  {
  }

  lemma NowTold(v: View, names: (string, string) -> string, c: Console, before: Lines, connected: set<u32>,
                now: Lines, out: seq<Change>, failed: bool)
    requires c.pid !in v.unanswered
    requires Due(now, out, Answer(v, names, c, connected), LeftOut(v, c, connected), failed, before, connected)
    ensures Told(Noted(v, c.pid, now, out, failed), names, c, before, connected)
  {
    hide Due, Answer, LeftOut;
    var w := Noted(v, c.pid, now, out, failed);
    SameAnswer(v, w, names, c, connected);
    assert c.pid in w.sent && w.sent[c.pid] == now;
    assert c.pid in w.told && w.told[c.pid] == out;
    assert c.pid in w.unanswered <==> failed;
  }

  class Notifier {
    const core: PresenceCore
    const names: (string, string) -> string
    var sent: map<u32, Lines>
    ghost var told: map<u32, seq<Change>>
    ghost var unanswered: set<u32>

    constructor (core: PresenceCore, names: (string, string) -> string)
      ensures sent == map[] && this.core == core && this.names == names
    {
      this.core, this.names := core, names;
      sent, told, unanswered := map[], map[], {};
    }

    ghost function Now(): View
      reads this, core`registry, core`friends
    {
      View(core.registry, core.friends, sent, told, unanswered)
    }

    /** ForeignFriends; a friend list the core does not give is taken for an empty one. */
    method ForeignFriends(c: Console, connected: set<u32>) returns (now: Lines)
      modifies core`failures
      ensures old(core.failures) <= core.failures <= old(core.failures) + 1
      ensures Answers(now, Answer(Now(), names, c, connected), LeftOut(Now(), c, connected),
                      core.failures > old(core.failures))
    {
      hide Truth, LineFor, Beyond;
      var byPid := core.FriendAccountsByPID(c.pid);
      NobodyToAnswer(core.registry, c.namespace, connected, names);
      if byPid.None? || byPid.value == map[] {
        return map[];
      }
      now := ForeignFor(core, c.namespace, byPid.value, connected, names);
    }

    /**
      Tick: every connected viewer is told what changed for them, and viewers that left are forgotten. The core's answer
      is missing for as many viewers as calls have failed, and for nobody else.
     */
    method Tick(viewers: seq<Console>, connected: set<u32>)
      requires DistinctPids(viewers)
      modifies this`sent, this`told, this`unanswered, core`failures
      ensures sent.Keys == PidsOf(viewers)
      ensures forall i :: 0 <= i < |viewers| ==>
        Told(Now(), names, viewers[i], SentTo(old(sent), viewers[i].pid), connected)
      ensures unanswered <= PidsOf(viewers) && |unanswered| == core.failures - old(core.failures)
    {
      hide Told, PidsOf;
      told, unanswered := map[], {};
      TickAll(viewers, connected);
      PidsOfAll(viewers);
      ghost var v := Now();
      Forget(viewers);
      forall k | 0 <= k < |viewers|
        ensures Told(Now(), names, viewers[k], SentTo(old(sent), viewers[k].pid), connected)
      {
        StaysTold(v, Now(), names, viewers[k], SentTo(old(sent), viewers[k].pid), connected);
      }
    }

    /** Tick's first loop. */
    method TickAll(viewers: seq<Console>, connected: set<u32>)
      requires DistinctPids(viewers) && unanswered == {}
      modifies this`sent, this`told, this`unanswered, core`failures
      ensures forall i :: 0 <= i < |viewers| ==>
        Told(Now(), names, viewers[i], SentTo(old(sent), viewers[i].pid), connected)
      ensures unanswered <= PidsOf(viewers) <= sent.Keys && |unanswered| == core.failures - old(core.failures)
    {
      hide Told, PidsOf, OnlyFor, DistinctPids;
      PidsOfAll(viewers[..0]);
      for i := 0 to |viewers|
        invariant forall k :: 0 <= k < i ==> Told(Now(), names, viewers[k], SentTo(old(sent), viewers[k].pid), connected)
        invariant forall k :: i <= k < |viewers| ==> SentTo(sent, viewers[k].pid) == SentTo(old(sent), viewers[k].pid)
        invariant unanswered <= PidsOf(viewers[..i]) <= sent.Keys
        invariant |unanswered| == core.failures - old(core.failures)
      {
        PidsOfNext(viewers, i);
        PidsDiffer(viewers, i);
        ghost var v := Now();
        TickOne(viewers[i], connected);
        forall k | 0 <= k < i ensures Told(Now(), names, viewers[k], SentTo(old(sent), viewers[k].pid), connected) {
          OthersStayTold(v, Now(), viewers[i].pid, names, viewers[k], SentTo(old(sent), viewers[k].pid), connected);
        }
        OthersStaySent(v, Now(), viewers[i].pid);
        ToldIsSent(Now(), names, viewers[i], SentTo(old(sent), viewers[i].pid), connected);
      }
      assert viewers[..|viewers|] == viewers;
    }

    /** One turn of Tick's first loop. */
    method TickOne(c: Console, connected: set<u32>)
      requires c.pid !in unanswered
      modifies this`sent, this`told, this`unanswered, core`failures
      ensures Told(Now(), names, c, SentTo(old(sent), c.pid), connected) && OnlyFor(old(Now()), Now(), c.pid)
      ensures old(core.failures) <= core.failures <= old(core.failures) + 1
      ensures unanswered == old(unanswered) + if core.failures > old(core.failures) then {c.pid} else {}
    {
      hide Told, OnlyFor, Lists, Answers, Answer, LeftOut, Patch;
      ghost var v, failures := Now(), core.failures;
      var now := ForeignFriends(c, connected);
      var out := Diff(SentTo(sent, c.pid), now, connected);
      NotedOnly(v, c.pid, now, out, core.failures > failures);
      NowTold(v, names, c, SentTo(sent, c.pid), connected, now, out, core.failures > failures);
      told := told[c.pid := out];
      sent := sent[c.pid := now];
      if core.failures > failures { unanswered := unanswered + {c.pid}; }
      assert Now() == Noted(v, c.pid, now, out, core.failures > failures);
    }

    /** Tick's second loop: viewers that are not connected any more. */
    method Forget(viewers: seq<Console>)
      requires PidsOf(viewers) <= sent.Keys
      modifies this`sent
      ensures sent.Keys == PidsOf(viewers)
      ensures forall v :: v in sent ==> sent[v] == old(sent)[v]
    {
      var live := PidSet(viewers);
      sent := map v | v in sent && v in live :: sent[v];
      assert sent.Keys == live;
    }

    static method PidSet(viewers: seq<Console>) returns (live: set<u32>)
      ensures live == PidsOf(viewers)
    {
      live := {};
      for i := 0 to |viewers|
        invariant live == PidsOf(viewers[..i])
      {
        assert viewers[..i + 1] == viewers[..i] + [viewers[i]];
        live := live + {viewers[i].pid};
      }
      assert viewers[..|viewers|] == viewers;
    }
  }

  lemma ToldIsSent(v: View, names: (string, string) -> string, c: Console, before: Lines, connected: set<u32>)
    requires Told(v, names, c, before, connected)
    ensures c.pid in v.sent
  {
  }

  lemma SameAnswer(v: View, w: View, names: (string, string) -> string, c: Console, connected: set<u32>)
    requires w.registry == v.registry && w.friends == v.friends
    ensures Answer(w, names, c, connected) == Answer(v, names, c, connected)
    ensures LeftOut(w, c, connected) == LeftOut(v, c, connected)
  {
  }

  lemma OthersStaySent(v: View, w: View, pid: u32)
    requires OnlyFor(v, w, pid)
    ensures forall q :: q != pid ==> SentTo(w.sent, q) == SentTo(v.sent, q) && (q in w.sent <==> q in v.sent)
  {
    forall q | q != pid ensures SentTo(w.sent, q) == SentTo(v.sent, q) && (q in w.sent <==> q in v.sent) {
      assert q in w.sent <==> q in (w.sent - {pid});
      assert q in v.sent <==> q in (v.sent - {pid});
    }
  }

  lemma StaysTold(v: View, w: View, names: (string, string) -> string, c: Console, before: Lines, connected: set<u32>)
    requires w == v.(sent := w.sent) && c.pid in w.sent && c.pid in v.sent && w.sent[c.pid] == v.sent[c.pid]
    requires Told(v, names, c, before, connected)
    ensures Told(w, names, c, before, connected)
  {
    SameAnswer(v, w, names, c, connected);
    hide Due, Answer, LeftOut;
  }

  ghost function PidsOf(viewers: seq<Console>): set<u32> {
    if viewers == [] then {} else PidsOf(viewers[..|viewers| - 1]) + {viewers[|viewers| - 1].pid}
  }

  lemma {:induction false} PidsOfAll(viewers: seq<Console>)
    ensures forall i :: 0 <= i < |viewers| ==> viewers[i].pid in PidsOf(viewers)
    ensures forall v :: v in PidsOf(viewers) ==> exists i :: 0 <= i < |viewers| && viewers[i].pid == v
  {
    if viewers != [] {
      PidsOfAll(viewers[..|viewers| - 1]);
    }
  }

  lemma PidsOfNext(viewers: seq<Console>, i: nat)
    requires DistinctPids(viewers) && i < |viewers|
    ensures PidsOf(viewers[..i + 1]) == PidsOf(viewers[..i]) + {viewers[i].pid}
    ensures viewers[i].pid !in PidsOf(viewers[..i])
  {
    assert viewers[..i + 1][..i] == viewers[..i];
    PidsOfAll(viewers[..i]);
  }

  lemma PidsDiffer(viewers: seq<Console>, i: nat)
    requires DistinctPids(viewers) && i < |viewers|
    ensures forall k :: 0 <= k < |viewers| && k != i ==> viewers[k].pid != viewers[i].pid
  {
  }

  /** Viewers are the keys of the map of connected users. */
  ghost predicate DistinctPids(viewers: seq<Console>) {
    forall i, j :: 0 <= i < j < |viewers| ==> viewers[i].pid != viewers[j].pid
  }
}
