/**
  coreevents/poller.go as it runs: the loops of the event poller over a core that may fail any call, grow its log at
  any call, and break the stream at any moment. Every durable effect is also recorded as an action of CursorProtocol,
  so each method is proved to perform a run of that machine, and its theorems hold of the code at every point.
 */
module Poller {
  import opened Basics
  import opened EventLog
  import opened CursorProtocol

  datatype Subscription = Open | Unimplemented | Refused

  /**
    The core's Events service. `future` is what it will still record, and `faults` and `deliveries` how many polls will
    fail and how many messages streams will carry: all three arbitrary but finite, so that a run is finite.
   */
  class Core {
    var log: seq<Event>
    var future: seq<Event>
    var faults: nat
    var deliveries: nat
    var position: u64  // of the open stream
    ghost var subscribes: nat   // how often a stream was asked for,
    ghost var legacies: nat     // how often there was no such call,
    ghost var refusals: nat     // how often it failed,
    ghost var breaks: nat       // and how often an open one broke

    ghost predicate Valid() reads this {
      Increasing(log + future) && Increasing(log)
    }

    ghost function Budget(): nat reads this {
      |log| + |future| + faults
    }

    /** How many attempts at a stream are over. */
    ghost function Ends(): nat reads this {
      breaks + refusals + legacies
    }

    constructor (log: seq<Event>, future: seq<Event>, faults: nat, deliveries: nat)
      requires Increasing(log + future)
      ensures Valid() && this.log == log && this.future == future && this.faults == faults
      ensures this.deliveries == deliveries
    {
      this.log, this.future, this.faults, this.deliveries, position := log, future, faults, deliveries, 0;
      subscribes, legacies, refusals, breaks := 0, 0, 0, 0;
      new;
      SeenGrows(log, future, 0);
    }

    /** Other surfaces act: some of the future becomes the past. */
    method Advance()
      requires Valid()
      modifies this`log, this`future
      ensures Valid() && log + future == old(log + future) && old(log) <= log
      ensures |log| + |future| == old(|log| + |future|)
    {
      var n: int := *;
      if 0 <= n <= |future| {
        var all := log + future;
        log, future := log + future[..n], future[n..];
        assert log + future == all;
        SeenGrows(log, future, 0);
      }
    }

    /** The core's index lookup: where the events above `v` start. */
    method Rank(v: u64) returns (n: nat)
      requires Valid()
      ensures n == Seen(log, v)
    {
      n := 0;
      while n < |log| && log[n].version <= v
        invariant n <= |log|
        invariant n == 0 || log[n - 1].version <= v
      {
        n := n + 1;
      }
      SeenIs(log, v, n);
    }

    method PollEvents(since: u64) returns (page: Option<seq<Event>>)
      requires Valid()
      modifies this`log, this`future, this`faults
      ensures Valid() && log + future == old(log + future) && old(log) <= log
      ensures |log| + |future| == old(|log| + |future|)
      ensures page.None? ==> faults < old(faults)
      ensures page.Some? ==> faults == old(faults) && page.value == Page(log, since)
    {
      Advance();
      var fails: bool := *;
      if fails && 0 < faults {
        faults := faults - 1;
        page := None;
      } else {
        var n := Rank(since);
        page := Some(log[n..if |log| - n < PAGE_LIMIT then |log| else n + PAGE_LIMIT]);
      }
    }

    method Subscribe(since: u64) returns (r: Subscription)
      modifies this`position, this`subscribes, this`legacies, this`refusals
      ensures subscribes == old(subscribes) + 1
      ensures legacies == old(legacies) + if r.Unimplemented? then 1 else 0
      ensures refusals == old(refusals) + if r.Refused? then 1 else 0
      ensures r.Open? ==> position == since
    {
      r := *;
      position := since;
      subscribes := subscribes + 1;
      if r.Unimplemented? { legacies := legacies + 1; }
      if r.Refused? { refusals := refusals + 1; }
    }

    /** The next event after the stream's position, or a replay of one at or below it, or None when the stream breaks. */
    method Recv() returns (m: Option<Event>)
      requires Valid()
      modifies this`log, this`future, this`deliveries, this`position, this`breaks
      ensures breaks == old(breaks) + if m.None? then 1 else 0
      ensures m.None? ==> position == old(position)
      ensures Valid() && log + future == old(log + future) && old(log) <= log
      ensures m.Some? ==> deliveries < old(deliveries)
      ensures m.Some? && m.value.version <= old(position) ==> position == old(position)
      ensures m.Some? && old(position) < m.value.version ==>
        && position == m.value.version
        && Seen(log, old(position)) < |log| && m.value == log[Seen(log, old(position))]
    {
      Advance();
      var broken: bool, replays: bool, k: int := *, *, *;
      if broken || deliveries == 0 {
        breaks := breaks + 1;
        return None;
      }
      deliveries := deliveries - 1;
      var n := Rank(position);
      if replays && 0 <= k < n {
        assert Before(log, k, n - 1);
        return Some(log[k]);
      }
      if n == |log| {
        breaks := breaks + 1;
        return None;
      }
      position := log[n].version;
      return Some(log[n]);
    }
  }

  class Poller {
    const core: Core
    var row: Option<i64>            // core_events_cursor, id 1
    ghost var handled: seq<Event>   // the events `handle` was called with
    ghost var failedSaves: nat      // the writes of the row that failed
    ghost var failedReads: nat      // and the reads
    ghost var start: State
    ghost var acts: seq<Action>
    ghost var s: State

    /** The code's state is the state the machine reaches by the recorded actions. */
    ghost predicate Valid() reads this, core {
      && core.Valid()
      && Init(start) && Run(start, acts) == Some(s)
      && s.log == core.log && s.row == row && s.handled == handled
      && LostSaves(acts) == failedSaves
    }

    constructor (core: Core, row: Option<i64>)
      requires core.Valid()
      ensures Valid() && this.core == core && this.row == row && acts == [] && handled == []
    {
      this.core, this.row, failedSaves, failedReads := core, row, 0, 0;
      handled, acts := [], [];
      start := State(core.log, row, Down, [], None);
      s := State(core.log, row, Down, [], None);
    }

    ghost method Do(a: Action)
      requires Run(start, acts) == Some(s) && Enabled(s, a)
      modifies this`acts, this`s
      ensures acts == old(acts) + [a] && s == Step(old(s), a) && Run(start, acts) == Some(s)
      ensures LostSaves(acts) == LostSaves(old(acts)) + if IsLost(a) then 1 else 0
      ensures ShapeOf(acts) == Counted(ShapeOf(old(acts)), a)
    {
      RunSnoc(start, acts, a);
      TallySnoc(acts, a);
      s := Step(s, a);
      acts := acts + [a];
    }

    /** Record what the core appended during a call. */
    ghost method Sync()
      requires Run(start, acts) == Some(s) && core.Valid() && s.log <= core.log
      modifies this`acts, this`s
      ensures old(acts) <= acts && s == old(s).(log := core.log) && Run(start, acts) == Some(s)
      ensures LostSaves(acts) == LostSaves(old(acts)) && ShapeOf(acts) == ShapeOf(old(acts))
    {
      var more := core.log[|s.log|..];
      assert s.log + more == core.log;
      SeenGrows(s.log, more, 0);
      Do(Grow(more));
    }

    method SaveCursor(v: u64) returns (ok: bool)
      modifies this`row, this`failedSaves
      ensures row == if ok then Some(ToInt64(v)) else old(row)
      ensures failedSaves == old(failedSaves) + if ok then 0 else 1
    {
      ok := *;
      if ok {
        row := Some(ToInt64(v));
      } else {
        failedSaves := failedSaves + 1;
      }
    }

    /** The query for the row; None when there is none. */
    method ReadRow() returns (readable: bool, found: Option<i64>)
      modifies this`failedReads
      ensures readable ==> found == row
      ensures failedReads == old(failedReads) + if readable then 0 else 1
    {
      readable, found := *, row;
      if !readable {
        found, failedReads := None, failedReads + 1;
      }
    }

    /** The cursor after a page: the version of its last event, or the cursor it was asked from. */
    static method LastVersion(events: seq<Event>, since: u64) returns (version: u64)
      ensures version == if events == [] then since else events[|events| - 1].version
    {
      version := since;
      for i := 0 to |events|
        invariant version == if i == 0 then since else events[i - 1].version
      {
        version := events[i].version;
      }
    }

    /** The newest version the core holds when the last page arrives; a failed page is an error. */
    method HeadVersion() returns (head: Option<u64>)
      requires core.Valid()
      modifies core`log, core`future, core`faults
      ensures core.Valid() && old(core.log) <= core.log
      ensures head.Some? ==> head.value == Head(core.log)
      ensures head.None? <==> core.faults < old(core.faults)
      ensures core.faults <= old(core.faults)
    {
      var version: u64 := 0;
      while true
        invariant core.Valid() && old(core.log) <= core.log
        invariant version == 0 || version <= Head(core.log)
        invariant core.faults == old(core.faults)
        decreases core.Budget() - Seen(core.log, version)
      {
        ghost var before := core.log;
        var page := core.PollEvents(version);
        SeenVersion(before, core.log, version);
        if page.None? {
          return None;
        }
        PageAdvances(core.log, version);
        version := LastVersion(page.value, version);
        if |page.value| < PAGE_LIMIT {
          return Some(version);
        }
      }
    }

    /**
      The cursor to start from: the stored one, or the head when there is none, when it cannot be read, or when it lies
      past the head; and 0 when neither can be read. A head it falls back to is written to the row.
     */
    method LoadCursor() returns (v: u64)
      requires Valid() && s.phase.Down?
      modifies core`log, core`future, core`faults, this`row, this`failedSaves, this`failedReads, this`acts, this`s
      ensures Valid() && old(acts) <= acts && start == old(start) && old(core.log) <= core.log
      ensures s.phase == Polling(v, false) && ShapeOf(acts) == Counted(old(ShapeOf(acts)), acts[|acts| - 1])
      ensures handled == old(handled)
      ensures acts[|acts| - 1].Load?
      ensures acts[|acts| - 1].headOk <==> core.faults == old(core.faults)
      ensures core.faults <= old(core.faults)
      ensures failedSaves == old(failedSaves) + if acts[|acts| - 1].saved then 0 else 1
      ensures failedReads == old(failedReads) + if acts[|acts| - 1].readable then 0 else 1
      ensures
        var load, stored := acts[|acts| - 1], Stored(old(s));
        var found := load.readable && old(row).Some?;
        && v == (if found && (load.headOk ==> stored <= Head(core.log)) then stored
                 else if load.headOk then Head(core.log) else 0)
        && row == (if load.headOk && load.saved && (found ==> Head(core.log) < stored) then Some(ToInt64(v)) else old(row))
    {
      hide Run, Init, Increasing, SplitsAt, Head, Step, Enabled, ShapeOf, LostSaves;
      var head := HeadVersion();
      Sync();
      var readable, found := ReadRow();
      var saved := true;
      if readable && found.Some? {
        v := FromInt64(found.value);
        if head.Some? && head.value < v {
          v := head.value;
          saved := SaveCursor(v);
        }
      } else if head.Some? {
        v := head.value;
        saved := SaveCursor(v);
      } else {
        v := 0;
      }
      LoadDoes(s, Load(head.Some?, readable, saved));
      Do(Load(head.Some?, readable, saved));
    }

    /** The loop over one page: each event is handled, then becomes the cursor. */
    method HandlePage(events: seq<Event>, since: u64, ghost legacy: bool) returns (version: u64)
      requires Valid() && events == Page(core.log, since)
      requires s.phase == Paging(since, |events|, |events|, legacy)
      requires since <= Head(core.log) || events == []
      modifies this`handled, this`acts, this`s
      ensures Valid() && old(acts) <= acts && start == old(start)
      ensures version == if events == [] then since else events[|events| - 1].version
      ensures s.phase == Paging(version, 0, |events|, legacy) && ShapeOf(acts) == old(ShapeOf(acts))
      ensures handled == old(handled) + events
    {
      hide Run, Init, SplitsAt, Increasing;
      version := since;
      ghost var n := Seen(core.log, since);
      for i := 0 to |events|
        invariant Valid() && old(acts) <= acts && ShapeOf(acts) == old(ShapeOf(acts))
        invariant version == if i == 0 then since else events[i - 1].version
        invariant Seen(core.log, version) == n + i
        invariant s.phase == Paging(version, |events| - i, |events|, legacy)
        invariant handled == old(handled) + events[..i]
      {
        SeenAt(core.log, n + i);
        Do(Handle);
        handled := handled + [events[i]];
        assert events[..i + 1] == events[..i] + [events[i]];
        version := events[i].version;
      }
      assert events[..|events|] == events;
    }

    /** One page of drain: its events handled, and the cursor saved unless the page was empty. */
    method TakePage(events: seq<Event>, since: u64, ghost legacy: bool) returns (version: u64)
      requires Valid() && events == Page(core.log, since)
      requires s.phase == Polling(since, legacy)
      requires since <= Head(core.log) || events == []
      modifies this`row, this`failedSaves, this`handled, this`acts, this`s
      ensures Valid() && old(acts) <= acts && start == old(start)
      ensures version == if events == [] then since else events[|events| - 1].version
      ensures s.phase == if |events| < PAGE_LIMIT then Drained(version, legacy) else Polling(version, legacy)
      ensures handled == old(handled) + events && ShapeOf(acts) == old(ShapeOf(acts))
      ensures old(failedSaves) <= failedSaves && (events == [] ==> failedSaves == old(failedSaves))
      ensures row == if events != [] && failedSaves == old(failedSaves) then Some(ToInt64(version)) else old(row)
    {
      hide Run, Init, Increasing, SplitsAt, Head, Page, Step, Enabled, ShapeOf, LostSaves;
      PageBegins(s, since, legacy);
      Do(Poll);
      version := HandlePage(events, since, legacy);
      var saved := true;
      if 0 < |events| {
        saved := SaveCursor(version);
      }
      PageEnds(s, saved);
      Do(EndPage(saved));
    }

    /** Handles the rest of the log behind `since`, page by page; a failed poll is tried again. */
    method Drain(since: u64, ghost legacy: bool) returns (version: u64)
      requires Valid() && s.phase == Polling(since, legacy)
      modifies core`log, core`future, core`faults, this`row, this`failedSaves, this`handled, this`acts, this`s
      ensures core.faults <= old(core.faults)
      ensures Valid() && old(acts) <= acts && start == old(start) && old(core.log) <= core.log
      ensures s.phase == Drained(version, legacy)
      ensures handled == old(handled) + core.log[Seen(core.log, since)..]
      ensures version == if Head(core.log) <= since then since else Head(core.log)
      ensures ShapeOf(acts) == old(ShapeOf(acts))
      ensures RowFollows(since, version, old(row), row, old(failedSaves), failedSaves)
    {
      hide Run, Init, Increasing, SplitsAt, Page, Span, Head, Step, Enabled, RowFollows, ShapeOf, LostSaves;
      version := since;
      SpanEmpty(core.log, since);
      RowFollowsNot(since, row, failedSaves);
      while true
        invariant core.faults <= old(core.faults)
        invariant Valid() && old(acts) <= acts && old(core.log) <= core.log
        invariant s.phase == Polling(version, legacy)
        invariant version == since || since < version <= Head(core.log)
        invariant handled == old(handled) + Span(core.log, since, version) && ShapeOf(acts) == old(ShapeOf(acts))
        invariant RowFollows(since, version, old(row), row, old(failedSaves), failedSaves)
        decreases core.Budget() - Seen(core.log, version)
      {
        ghost var before := core.log;
        var page := core.PollEvents(version);
        Sync();
        SpanGrows(before, core.log, since, version);
        if page.None? {
          continue;
        }
        PageAdvancesFrom(core.log, since, version);
        ghost var v, saved, failed := version, row, failedSaves;
        version := TakePage(page.value, version, legacy);
        RowFollowsOn(since, v, version, old(row), saved, row, old(failedSaves), failed, failedSaves);
        if |page.value| < PAGE_LIMIT {
          return;
        }
      }
    }

    /** One stream event: handled, then made the cursor, then saved. */
    method TakeEvent(e: Event, since: u64) returns (version: u64)
      requires Valid() && s.phase == Streaming(since)
      requires Seen(core.log, since) < |core.log| && e == core.log[Seen(core.log, since)]
      modifies this`row, this`failedSaves, this`handled, this`acts, this`s
      ensures Valid() && old(acts) <= acts && start == old(start)
      ensures version == e.version && s.phase == Streaming(version) && handled == old(handled) + [e]
      ensures ShapeOf(acts) == old(ShapeOf(acts)) && old(failedSaves) <= failedSaves
      ensures row == if failedSaves == old(failedSaves) then Some(ToInt64(version)) else old(row)
    {
      hide Run, Init, Increasing, SplitsAt;
      Do(Deliver);
      handled := handled + [e];
      version := e.version;
      var saved := SaveCursor(version);
      Do(SaveStream(saved));
    }

    /**
      The open stream: each new event is handled, a replay of an old one skipped, until the stream breaks, which is the
      only way out. Whatever the stream has delivered by then has been handled.
     */
    method Listen(since: u64) returns (ghost reached: u64)
      requires Valid() && s.phase == Streaming(since) && core.position == since
      modifies core`log, core`future, core`deliveries, core`position, core`breaks
      modifies this`row, this`failedSaves, this`handled, this`acts, this`s
      ensures Valid() && old(acts) <= acts && start == old(start) && old(core.log) <= core.log
      ensures s.phase == Down
      ensures since <= reached == core.position && core.breaks == old(core.breaks) + 1
      ensures handled == old(handled) + Span(core.log, since, reached) && ShapeOf(acts) == old(ShapeOf(acts))
      ensures RowFollows(since, reached, old(row), row, old(failedSaves), failedSaves)
    {
      hide Run, Init, Increasing, SplitsAt, Page, Span, Head, Step, Enabled, ShapeOf, LostSaves, RowFollows;
      SpanEmpty(core.log, since);
      RowFollowsNot(since, row, failedSaves);
      var version: u64 := since;
      while true
        invariant Valid() && old(acts) <= acts && old(core.log) <= core.log
        invariant s.phase == Streaming(version) && core.position == version
        invariant version == since || since < version <= Head(core.log)
        invariant handled == old(handled) + Span(core.log, since, version) && ShapeOf(acts) == old(ShapeOf(acts))
        invariant RowFollows(since, version, old(row), row, old(failedSaves), failedSaves)
        invariant core.breaks == old(core.breaks)
        decreases core.deliveries
      {
        ghost var before := core.log;
        var m := core.Recv();
        Sync();
        SpanGrows(before, core.log, since, version);
        if m.None? {
          StreamDoes(s, 0);
          Do(Break);
          return version;
        }
        var e := m.value;
        if e.version <= version {
          StreamDoes(s, e.version);
          Do(Replay(e.version));
          continue;
        }
        EventAdvances(core.log, since, version);
        ghost var v, saved, failed := version, row, failedSaves;
        version := TakeEvent(e, version);
        RowFollowsOn(since, v, version, old(row), saved, row, old(failedSaves), failed, failedSaves);
      }
    }

    /**
      Subscribes from `since` and handles events until the stream breaks. `reached` is the cursor it got to: the events
      handled are exactly those between the two, however often the core replayed one.
     */
    method Stream(since: u64) returns (legacy: bool, ok: bool, ghost reached: u64)
      requires Valid() && s.phase == Drained(since, false)
      modifies core, this`row, this`failedSaves, this`handled, this`acts, this`s
      ensures core.faults == old(core.faults)
      ensures Valid() && old(acts) <= acts && start == old(start) && old(core.log) <= core.log
      ensures legacy ==> ok && s.phase == Drained(since, true) && handled == old(handled) && row == old(row)
      ensures !legacy ==> !ok && s.phase == Down
      ensures since <= reached && handled == old(handled) + Span(core.log, since, reached)
      ensures RowFollows(since, reached, old(row), row, old(failedSaves), failedSaves)
      ensures core.subscribes == old(core.subscribes) + 1 && core.Ends() == old(core.Ends()) + 1
      ensures core.legacies == old(core.legacies) + if legacy then 1 else 0
      ensures core.breaks > old(core.breaks) ==> reached == core.position
      ensures core.breaks == old(core.breaks) ==> reached == since
      ensures ShapeOf(acts) == Counted(old(ShapeOf(acts)), if legacy then Legacy else Subscribe)
    {
      hide Run, Init, Increasing, SplitsAt, Page, Span, Head, Step, Enabled, ShapeOf, LostSaves, RowFollows;
      SpanEmpty(core.log, since);
      RowFollowsNot(since, row, failedSaves);
      AskDoes(s, since);
      var subscription := core.Subscribe(since);
      if subscription.Unimplemented? {
        Do(Legacy);
        return true, true, since;
      }
      if subscription.Refused? {
        Do(SubscribeFailed);
        return false, false, since;
      }
      Do(Subscribe);
      reached := Listen(since);
      return false, false, reached;
    }

    /**
      How every turn begins: load the cursor and drain. `from` is where in the log it took up. A process that finds no
      row, or cannot read it, handles nothing that was there before it came, and one that finds a cursor goes on after it.
     */
    method Resume() returns (version: u64, ghost load: Action, ghost from: nat)
      requires Valid() && s.phase.Down?
      modifies core`log, core`future, core`faults
      modifies this`row, this`failedSaves, this`failedReads, this`handled, this`acts, this`s
      ensures Valid() && old(acts) <= acts && start == old(start) && old(core.log) <= core.log
      ensures s.phase == Drained(version, false)
      ensures ShapeOf(acts) == Counted(old(ShapeOf(acts)), load)
      ensures load.Load? && failedReads == old(failedReads) + if load.readable then 0 else 1
      ensures core.faults <= old(core.faults) && (load.headOk || core.faults < old(core.faults))
      ensures from <= |core.log| && handled == old(handled) + core.log[from..]
      ensures TookUp(load, from, old(core.log), old(row), Stored(old(s)))
    {
      hide Run, Init, Increasing, SplitsAt, Head, Step, Enabled;
      ghost var before := core.log;
      version := LoadCursor();
      load := acts[|acts| - 1];
      ghost var loaded := core.log;
      ghost var cursor := version;
      version := Drain(version, false);
      from := Seen(core.log, cursor);
      TakesUp(before, loaded, core.log, cursor);
    }

    /** A drain, with the record of what it handled. */
    method DrainNoted(since: u64, ghost legacy: bool) returns (version: u64, ghost d: Pass)
      requires Valid() && s.phase == Polling(since, legacy)
      modifies core`log, core`future, core`faults, this`row, this`failedSaves, this`handled, this`acts, this`s
      ensures core.faults <= old(core.faults)
      ensures Valid() && old(acts) <= acts && start == old(start) && old(core.log) <= core.log
      ensures s.phase == Drained(version, legacy) && ShapeOf(acts) == old(ShapeOf(acts))
      ensures old(handled) <= handled && IsDrain(d, core.log, handled) && d.before == |old(core.log)|
    {
      hide Run, Init, Increasing, SplitsAt, Head;
      version := Drain(since, legacy);
      d := Pass(|old(handled)|, Seen(core.log, since), |old(core.log)|, |core.log|);
      NowDrained(old(handled), handled, core.log, d);
    }

    /** The ticks of one turn on which there is no stream: each of them drains. */
    method TickOn(since: u64, ticks: nat, ghost before: seq<Pass>) returns (ghost drains: seq<Pass>)
      requires Valid() && s.phase == Drained(since, true) && AllDrains(before, core.log, handled)
      modifies core`log, core`future, core`faults, this`row, this`failedSaves, this`handled, this`acts, this`s
      ensures core.faults <= old(core.faults)
      ensures Valid() && old(acts) <= acts && start == old(start) && old(core.log) <= core.log
      ensures s.phase.Drained? && s.phase.legacy && old(handled) <= handled
      ensures ShapeOf(acts) == old(ShapeOf(acts)).(ticks := old(ShapeOf(acts)).ticks + ticks)
      ensures before <= drains && |drains| == |before| + ticks && AllDrains(drains, core.log, handled)
    {
      hide Run, Init, Increasing, SplitsAt, Head, AllDrains, IsDrain;
      var version := since;
      drains := before;
      for j := 0 to ticks
        invariant core.faults <= old(core.faults)
        invariant Valid() && old(acts) <= acts && start == old(start) && s.phase == Drained(version, true)
        invariant old(core.log) <= core.log && old(handled) <= handled
        invariant ShapeOf(acts) == old(ShapeOf(acts)).(ticks := old(ShapeOf(acts)).ticks + j)
        invariant before <= drains && |drains| == |before| + j && AllDrains(drains, core.log, handled)
      {
        ghost var log, done := core.log, handled;
        Do(Tick);
        ghost var d;
        version, d := DrainNoted(version, true);
        DrainsGrow(drains, log, core.log, done, handled, d);
        drains := drains + [d];
      }
    }

    /**
      One turn of the loop: it loads the cursor, drains, and asks for the stream once. With a stream it ends when that
      breaks; without one it drains once more on each of its ticks. `drains` are those of `before` and then its own.
     */
    method Turn(ticks: nat, ghost before: seq<Pass>) returns (ghost drains: seq<Pass>, ghost load: Action)
      requires Valid() && s.phase.Down? && AllDrains(before, core.log, handled)
      modifies core, this`row, this`failedSaves, this`failedReads, this`handled, this`acts, this`s
      ensures Valid() && old(acts) <= acts && start == old(start) && s.phase.Down?
      ensures old(core.log) <= core.log && old(handled) <= handled
      ensures load.Load? && failedReads == old(failedReads) + if load.readable then 0 else 1
      ensures core.faults <= old(core.faults) && (load.headOk || core.faults < old(core.faults))
      ensures core.subscribes == old(core.subscribes) + 1 && core.Ends() == old(core.Ends()) + 1
      ensures
        var legacies := core.legacies - old(core.legacies);
        && 0 <= legacies <= 1 && ShapeOf(acts) == Turned(old(ShapeOf(acts)), 1, legacies, ticks)
        && |drains| == |before| + 1 + legacies * ticks
      ensures before <= drains && AllDrains(drains, core.log, handled)
      ensures
        |drains| > |before| &&
        var first := drains[|before|];
        && first.at == old(|handled|) && first.before == old(|core.log|)
        && TookUp(load, first.from, old(core.log), old(row), Stored(old(s)))
    {
      hide Run, Init, Increasing, SplitsAt, Head, Span, AllDrains, IsDrain, Step, Enabled, RowFollows, TookUp;
      hide Stored, ShapeOf, LostSaves;
      ghost var log, done := core.log, handled;
      var version;
      ghost var from;
      version, load, from := Resume();
      ghost var d := Pass(|done|, from, |log|, |core.log|);
      NowDrained(done, handled, core.log, d);
      DrainsGrow(before, log, core.log, done, handled, d);
      drains := before + [d];
      log, done := core.log, handled;
      var legacy, ok;
      ghost var reached;
      legacy, ok, reached := Stream(version);
      DrainsStay(drains, log, core.log, done, handled);
      if ok && legacy {
        drains := TickOn(version, ticks, drains);
        TickedOff(s);
        Do(LegacyOver);
      }
    }

    /**
      The first `rounds` turns of the endless loop, each with `ticks` ticks if there is no stream. Whatever the core
      does, each turn loads the cursor once, drains the log to its end, asks for the stream once and outlasts it, and
      every event of the log that lies above the cursor the first of them loads has been handled.
     */
    method Start(rounds: nat, ticks: nat) returns (ghost drains: seq<Pass>, ghost load: Action)
      requires Valid() && s.phase.Down?
      modifies core, this`row, this`failedSaves, this`failedReads, this`handled, this`acts, this`s
      ensures Valid() && old(acts) <= acts && start == old(start) && s.phase.Down?
      ensures old(core.log) <= core.log && old(handled) <= handled
      ensures rounds > 0 ==> load.Load? && failedReads >= old(failedReads) + if load.readable then 0 else 1
      ensures core.faults <= old(core.faults) && (rounds > 0 ==> load.headOk || core.faults < old(core.faults))
      ensures core.subscribes == old(core.subscribes) + rounds && core.Ends() == old(core.Ends()) + rounds
      ensures
        var legacies := core.legacies - old(core.legacies);
        && 0 <= legacies <= rounds && ShapeOf(acts) == Turned(old(ShapeOf(acts)), rounds, legacies, ticks)
        && |drains| == rounds + legacies * ticks
      ensures AllDrains(drains, core.log, handled)
      ensures rounds > 0 ==>
        && |drains| > 0 && drains[0].at == old(|handled|) && drains[0].before == old(|core.log|)
        && TookUp(load, drains[0].from, old(core.log), old(row), Stored(old(s)))
        && forall k :: drains[0].from <= k < |old(core.log)| ==> old(core.log)[k] in handled
    {
      hide Run, Init, Increasing, SplitsAt, Head, AllDrains, IsDrain, TookUp, ShapeOf, LostSaves, Stored, Turned;
      TurnedNot(ShapeOf(acts), ticks);
      drains, load := [], Load(false, false, false);
      NoDrains(core.log, handled);
      ghost var legacies := 0;
      for i := 0 to rounds
        invariant Valid() && old(acts) <= acts && start == old(start) && s.phase.Down?
        invariant old(core.log) <= core.log && old(handled) <= handled
        invariant core.subscribes == old(core.subscribes) + i && core.Ends() == old(core.Ends()) + i
        invariant 0 <= legacies == core.legacies - old(core.legacies) <= i
        invariant ShapeOf(acts) == Turned(old(ShapeOf(acts)), i, legacies, ticks)
        invariant |drains| == i + legacies * ticks && AllDrains(drains, core.log, handled)
        invariant i == 0 ==> core.log == old(core.log) && handled == old(handled) && row == old(row) && s == old(s)
        invariant core.faults <= old(core.faults)
        invariant i > 0 ==> load.Load? && (load.headOk || core.faults < old(core.faults))
        invariant i == 0 ==> failedReads == old(failedReads)
        invariant i > 0 ==> load.Load? && failedReads >= old(failedReads) + if load.readable then 0 else 1
        invariant i > 0 ==>
          && |drains| > 0 && drains[0].at == old(|handled|) && drains[0].before == old(|core.log|)
          && TookUp(load, drains[0].from, old(core.log), old(row), Stored(old(s)))
      {
        ghost var it;
        ghost var others := core.legacies;
        drains, it := Turn(ticks, drains);
        TurnedAgain(old(ShapeOf(acts)), i, legacies, core.legacies - others, ticks);
        legacies := core.legacies - old(core.legacies);
        load := if i == 0 then it else load;
      }
      if rounds > 0 {
        DrainHandles(drains, 0, old(core.log), core.log, handled);
      }
    }

    /** The process dies: whatever it held in memory is gone, the row stays. */
    ghost method Die()
      requires Valid()
      modifies this`acts, this`s
      ensures Valid() && acts == old(acts) + [Crash] && s.phase.Down?
    {
      hide Run;
      Do(Crash);
    }
  }

  /**
    One drain: it began when `at` events had been handled and the log held `before`, and handled the log from `from` to
    `after`, where the log ended when it returned.
   */
  datatype Pass = Pass(at: nat, from: nat, before: nat, after: nat)

  ghost predicate IsDrain(d: Pass, log: seq<Event>, handled: seq<Event>) {
    && d.from <= d.after && d.before <= d.after <= |log| && d.at + d.after - d.from <= |handled|
    && handled[d.at..d.at + d.after - d.from] == log[d.from..d.after]
  }

  ghost predicate AllDrains(drains: seq<Pass>, log: seq<Event>, handled: seq<Event>) {
    forall i :: 0 <= i < |drains| ==> IsDrain(drains[i], log, handled)
  }

  lemma NowDrained(before: seq<Event>, handled: seq<Event>, log: seq<Event>, d: Pass)
    requires d.from <= |log| == d.after && d.before <= d.after && d.at == |before|
    requires handled == before + log[d.from..]
    ensures IsDrain(d, log, handled)
  {
  }

  lemma NoDrains(log: seq<Event>, handled: seq<Event>)
    ensures AllDrains([], log, handled)
  {
  }

  lemma DrainsStay(drains: seq<Pass>, log: seq<Event>, log': seq<Event>, handled: seq<Event>, handled': seq<Event>)
    requires AllDrains(drains, log, handled) && log <= log' && handled <= handled'
    ensures AllDrains(drains, log', handled')
  {
    forall i | 0 <= i < |drains| ensures IsDrain(drains[i], log', handled') {
      var d := drains[i];
      assert IsDrain(d, log, handled);
      assert handled'[d.at..d.at + d.after - d.from] == handled[d.at..d.at + d.after - d.from];
      assert log'[d.from..d.after] == log[d.from..d.after];
    }
  }

  lemma DrainsGrow(drains: seq<Pass>, log: seq<Event>, log': seq<Event>, handled: seq<Event>, handled': seq<Event>,
                   d: Pass)
    requires AllDrains(drains, log, handled) && log <= log' && handled <= handled' && IsDrain(d, log', handled')
    ensures AllDrains(drains + [d], log', handled')
  {
    DrainsStay(drains, log, log', handled, handled');
  }

  /** What a drain took from the log has been handled. */
  lemma DrainHandles(drains: seq<Pass>, i: nat, before: seq<Event>, log: seq<Event>, handled: seq<Event>)
    requires i < |drains| && AllDrains(drains, log, handled) && before <= log && drains[i].before == |before|
    ensures forall k :: drains[i].from <= k < |before| ==> before[k] in handled
  {
    var d := drains[i];
    assert IsDrain(d, log, handled);
    forall k | d.from <= k < |before| ensures before[k] in handled {
      assert before[k] == log[d.from..d.after][k - d.from] == handled[d.at + k - d.from];
    }
  }

  /** The shape of a run after so many more turns, `legacies` of them without a stream. */
  function Turned(h: Shape, turns: nat, legacies: nat, ticks: nat): Shape {
    Shape(h.loads + turns, h.asks + turns, h.legacies + legacies, h.ticks + legacies * ticks, h.crashes)
  }

  lemma TurnedNot(h: Shape, ticks: nat)
    ensures Turned(h, 0, 0, ticks) == h
  {
  }

  lemma TurnedAgain(h: Shape, turns: nat, legacies: nat, n: nat, ticks: nat)
    ensures Turned(Turned(h, turns, legacies, ticks), 1, n, ticks) == Turned(h, turns + 1, legacies + n, ticks)
    ensures (legacies + n) * ticks == legacies * ticks + n * ticks
  {
  }

  lemma LoadDoes(s: State, load: Action)
    requires Increasing(s.log) && s.phase.Down? && load.Load?
    ensures Enabled(s, load)
    ensures
      var t, found := Step(s, load), load.readable && s.row.Some?;
      var reset := load.headOk && (found ==> Head(s.log) < Stored(s));
      var v := if reset then Head(s.log) else if found then Stored(s) else 0;
      && t.log == s.log && t.handled == s.handled && t.phase == Polling(v, false)
      && t.row == if reset && load.saved then Some(ToInt64(v)) else s.row
  {
  }

  lemma StreamDoes(s: State, version: u64)
    requires Increasing(s.log) && s.phase.Streaming? && version <= s.phase.cursor
    ensures Enabled(s, Break) && Step(s, Break) == s.(phase := Down)
    ensures Enabled(s, Replay(version)) && Step(s, Replay(version)) == s
  {
  }

  /** The three answers to asking for the stream. */
  lemma AskDoes(s: State, since: u64)
    requires Increasing(s.log) && s.phase == Drained(since, false)
    ensures Enabled(s, Legacy) && Step(s, Legacy) == s.(phase := Drained(since, true))
    ensures Enabled(s, SubscribeFailed) && Step(s, SubscribeFailed) == s.(phase := Down)
    ensures Enabled(s, Subscribe) && Step(s, Subscribe) == s.(phase := Streaming(since))
  {
  }

  lemma PageBegins(s: State, since: u64, legacy: bool)
    requires Increasing(s.log) && s.phase == Polling(since, legacy)
    ensures Enabled(s, Poll)
    ensures
      var size := |Page(s.log, since)|;
      Step(s, Poll) == s.(phase := Paging(since, size, size, legacy))
  {
  }

  /** What storing the cursor behind a page does; an empty page stores nothing. */
  lemma PageEnds(s: State, saved: bool)
    requires Increasing(s.log) && s.phase.Paging? && s.phase.left == 0 && (s.phase.size == 0 ==> saved)
    ensures Enabled(s, EndPage(saved))
    ensures
      var t, v := Step(s, EndPage(saved)), s.phase.cursor;
      && t == s.(row := t.row, phase := t.phase)
      && t.row == (if saved && 0 < s.phase.size then Some(ToInt64(v)) else s.row)
      && t.phase == if s.phase.size < PAGE_LIMIT then Drained(v, s.phase.legacy) else Polling(v, s.phase.legacy)
  {
  }

  /** The ticks over, the turn may end. */
  lemma TickedOff(s: State)
    requires Increasing(s.log) && s.phase.Drained? && s.phase.legacy
    ensures Enabled(s, LegacyOver) && Step(s, LegacyOver) == s.(phase := Down)
  {
  }

  /** What the row is after the cursor has gone from `since` to `version`: the cursor, unless a save has failed. */
  ghost predicate RowFollows(since: u64, version: u64, before: Option<i64>, row: Option<i64>, failed: nat, failed': nat) {
    && failed <= failed'
    && (version == since ==> row == before)
    && (failed' == failed && version != since ==> row == Some(ToInt64(version)))
  }

  lemma RowFollowsNot(since: u64, row: Option<i64>, failed: nat)
    ensures RowFollows(since, since, row, row, failed, failed)
  {
  }

  lemma RowFollowsOn(since: u64, v: u64, next: u64, before: Option<i64>, row: Option<i64>, row': Option<i64>,
                     failed: nat, failed': nat, failed'': nat)
    requires RowFollows(since, v, before, row, failed, failed') && failed' <= failed''
    requires next == since ==> next == v
    requires next == v ==> row' == row && failed'' == failed'
    requires next != v ==> row' == if failed'' == failed' then Some(ToInt64(next)) else row
    ensures RowFollows(since, next, before, row', failed, failed'')
  {
  }

  /** Where a load takes up in the log. */
  ghost predicate TookUp(load: Action, from: nat, log: seq<Event>, row: Option<i64>, stored: u64)
    requires Increasing(log)
  {
    && load.Load?
    && (load.headOk && (row == None || !load.readable) ==> |log| <= from)
    && (load.readable && row.Some? && stored <= Head(log) ==> from == Seen(log, stored))
  }

  /** The events above `a` up to `b`. */
  ghost function Span(log: seq<Event>, a: u64, b: u64): seq<Event>
    requires Increasing(log)
  {
    var m, n := Seen(log, a), Seen(log, b);
    if m < n then log[m..n] else []
  }

  lemma SpanEmpty(log: seq<Event>, a: u64)
    requires Increasing(log)
    ensures Span(log, a, a) == []
  {
  }

  /** What has been handled so far does not change when the log grows. */
  lemma SpanGrows(before: seq<Event>, log: seq<Event>, since: u64, v: u64)
    requires Increasing(log) && Increasing(before) && before <= log
    requires v == since || since < v <= Head(before)
    ensures v <= Head(before) ==> v <= Head(log) && Seen(log, v) == Seen(before, v)
    ensures Seen(before, v) <= Seen(log, v)
    ensures Span(log, since, v) == Span(before, since, v)
  {
    var more := log[|before|..];
    assert before + more == log;
    SeenGrows(before, more, since);
    SeenGrows(before, more, v);
    SeenMonotone(before, since, v);
  }

  /** What one page does to the cursor. */
  lemma PageAdvances(log: seq<Event>, v: u64)
    requires Increasing(log) && (v == 0 || v <= Head(log))
    ensures
      var page, next := Page(log, v), PastPage(log, v);
      && v <= next && (next == 0 || next <= Head(log))
      && Seen(log, next) == Seen(log, v) + |page|
      && (|page| < PAGE_LIMIT ==> next == Head(log))
  {
    var n, end := Seen(log, v), PageEnd(log, v);
    var page := Page(log, v);
    SeenAll(log, v);
    if page != [] {
      assert page[|page| - 1] == log[end - 1];
      SeenAt(log, end - 1);
      assert Before(log, n, end - 1);
    }
  }

  /** The cursor after the next page. */
  ghost function PastPage(log: seq<Event>, v: u64): u64
    requires Increasing(log)
  {
    var page := Page(log, v);
    if page == [] then v else page[|page| - 1].version
  }

  lemma PageAdvancesFrom(log: seq<Event>, since: u64, v: u64)
    requires Increasing(log) && (v == since || since < v <= Head(log))
    ensures
      var page, next := Page(log, v), PastPage(log, v);
      && (v <= Head(log) || page == [])
      && (next == since || since < next <= Head(log))
      && v <= next && (next == v <==> page == [])
      && Seen(log, next) == Seen(log, v) + |page|
      && Span(log, since, next) == Span(log, since, v) + page
      && (|page| < PAGE_LIMIT ==>
            && Span(log, since, next) == log[Seen(log, since)..]
            && next == if Head(log) <= since then since else Head(log))
  {
    SeenAll(log, v);
    SeenAll(log, since);
    SeenMonotone(log, since, v);
    if v <= Head(log) {
      PageAdvances(log, v);
    }
  }

  /** Where a cursor that was loaded at `loaded` lies before and after. */
  lemma TakesUp(before: seq<Event>, loaded: seq<Event>, log: seq<Event>, v: u64)
    requires Increasing(before) && Increasing(loaded) && Increasing(log) && before <= loaded <= log
    ensures Head(before) <= Head(loaded)
    ensures v == Head(loaded) ==> |before| <= Seen(log, v)
    ensures v <= Head(before) ==> Seen(log, v) == Seen(before, v)
  {
    var more, later := loaded[|before|..], log[|loaded|..];
    assert before + more == loaded && loaded + later == log;
    SeenGrows(before, more, v);
    SeenGrows(loaded, later, v);
    SeenAll(loaded, v);
  }

  lemma EventAdvances(log: seq<Event>, since: u64, v: u64)
    requires Increasing(log) && since <= v && Seen(log, v) < |log|
    ensures
      var e := log[Seen(log, v)];
      && v < e.version <= Head(log)
      && Seen(log, e.version) == Seen(log, v) + 1
      && Span(log, since, e.version) == Span(log, since, v) + [e]
  {
    var n := Seen(log, v);
    SeenAt(log, n);
    SeenMonotone(log, since, v);
    assert log[Seen(log, since)..n + 1] == log[Seen(log, since)..n] + [log[n]];
  }

  /** Growth past a cursor the log had reached, or one at 0, keeps its rank. */
  lemma SeenVersion(before: seq<Event>, log: seq<Event>, v: u64)
    requires Increasing(log) && Increasing(before) && before <= log
    requires v == 0 || v <= Head(before)
    ensures Seen(log, v) == Seen(before, v)
    ensures v == 0 || v <= Head(log)
  {
    assert before + log[|before|..] == log;
    SeenGrows(before, log[|before|..], v);
  }
}
