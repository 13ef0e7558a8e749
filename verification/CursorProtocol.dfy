/**
  The event loop of coreevents as a state machine with one action per durable effect, so that a
  crash can fall between any two of them: an event handled, the cursor row written or its write
  lost, the log grown, the transport changed. Every run, finite in length and otherwise arbitrary,
  is a sequence of actions.
 */
module CursorProtocol {
  import opened Basics
  import opened EventLog

  /** Where the loop is, and the in-memory cursor it holds there. */
  datatype Phase =
    | Down                                                          // before loadCursor: the row is all there is
    | Polling(cursor: u64, legacy: bool)                            // in drain, about to ask for a page
    | Paging(cursor: u64, left: nat, size: nat, legacy: bool)       // in drain, `left` of a page's `size` events to go
    | Drained(cursor: u64, legacy: bool)                            // drain has returned
    | Streaming(cursor: u64)                                        // waiting in Recv
    | Saving(cursor: u64)                                           // stream event handled, cursor not yet saved

  /**
    `row` is the table row of core_events_cursor and `handled` every event given to `handle`, in order, over
    all lives of the process. `first`, the cursor of the first load, is history, which no action depends on.
   */
  datatype State = State(log: seq<Event>, row: Option<i64>, phase: Phase, handled: seq<Event>, first: Option<u64>)

  datatype Action =
    | Grow(more: seq<Event>)
    | Load(headOk: bool, readable: bool, saved: bool)
    | Poll
    | Handle
    | EndPage(saved: bool)
    | Subscribe
    | Legacy
    | SubscribeFailed
    | Replay(version: u64)
    | Deliver
    | SaveStream(saved: bool)
    | Break
    | Tick
    | LegacyOver
    | Crash

  /** The stored cursor; 0, which is below every event, while there is no row. */
  function Stored(s: State): u64 {
    if s.row.None? then 0 else FromInt64(s.row.value)
  }

  /** The cursor the loop would go on from: the one in memory, or the stored one while it holds none. */
  function Current(s: State): u64 {
    if s.phase.Down? then Stored(s) else s.phase.cursor
  }

  /** loadCursor found a row. */
  predicate RowFound(s: State, readable: bool) {
    readable && s.row.Some?
  }

  function LoadedCursor(s: State, headOk: bool, readable: bool): u64 {
    if RowFound(s, readable) then
      if headOk && Head(s.log) < Stored(s) then Head(s.log) else Stored(s)
    else if headOk then Head(s.log)
    else 0
  }

  /** loadCursor writes the row back: a fresh cursor, or one reset to the head. */
  predicate LoadSaves(s: State, headOk: bool, readable: bool) {
    headOk && (RowFound(s, readable) ==> Head(s.log) < Stored(s))
  }

  ghost predicate Enabled(s: State, a: Action) {
    && Increasing(s.log)
    && match a
       case Grow(more) => Increasing(s.log + more)
       case Load(_, _, _) => s.phase.Down?
       case Poll => s.phase.Polling?
       case Handle => s.phase.Paging? && 0 < s.phase.left && Seen(s.log, s.phase.cursor) < |s.log|
       case EndPage(_) => s.phase.Paging? && s.phase.left == 0
       case Subscribe => s.phase.Drained? && !s.phase.legacy
       case Legacy => s.phase.Drained? && !s.phase.legacy
       case SubscribeFailed => s.phase.Drained? && !s.phase.legacy
       case Replay(version) => s.phase.Streaming? && version <= s.phase.cursor
       case Deliver => s.phase.Streaming? && Seen(s.log, s.phase.cursor) < |s.log|
       case SaveStream(_) => s.phase.Saving?
       case Break => s.phase.Streaming?
       case Tick => s.phase.Drained? && s.phase.legacy
       case LegacyOver => s.phase.Drained? && s.phase.legacy
       case Crash => true
  }

  function Saved(s: State, v: u64, ok: bool): State {
    if ok then s.(row := Some(ToInt64(v))) else s
  }

  function StepLoad(s: State, headOk: bool, readable: bool, saved: bool): State {
    var v := LoadedCursor(s, headOk, readable);
    var t := if LoadSaves(s, headOk, readable) then Saved(s, v, saved) else s;
    t.(phase := Polling(v, false), first := if s.first.None? then Some(v) else s.first)
  }

  function Loaded(s: State, load: Action): State
    requires load.Load?
  {
    StepLoad(s, load.headOk, load.readable, load.saved)
  }

  ghost function StepHandle(s: State): (e: Event)
    requires Increasing(s.log) && !s.phase.Down? && Seen(s.log, s.phase.cursor) < |s.log|
  {
    s.log[Seen(s.log, s.phase.cursor)]
  }

  ghost function Step(s: State, a: Action): State
    requires Enabled(s, a)
  {
    match a
    case Grow(more) => s.(log := s.log + more)
    case Load(_, _, _) => Loaded(s, a)
    case Poll =>
      var size := |Page(s.log, s.phase.cursor)|;
      s.(phase := Paging(s.phase.cursor, size, size, s.phase.legacy))
    case Handle =>
      var e := StepHandle(s);
      s.(handled := s.handled + [e], phase := s.phase.(cursor := e.version, left := s.phase.left - 1))
    case EndPage(saved) =>
      var v := s.phase.cursor;
      Saved(s, v, saved && 0 < s.phase.size).(
        phase := if s.phase.size < PAGE_LIMIT then Drained(v, s.phase.legacy) else Polling(v, s.phase.legacy))
    case Subscribe => s.(phase := Streaming(s.phase.cursor))
    case Legacy => s.(phase := Drained(s.phase.cursor, true))
    case SubscribeFailed => s.(phase := Down)
    case Replay(_) => s
    case Deliver =>
      var e := StepHandle(s);
      s.(handled := s.handled + [e], phase := Saving(e.version))
    case SaveStream(saved) => Saved(s, s.phase.cursor, saved).(phase := Streaming(s.phase.cursor))
    case Break => s.(phase := Down)
    case Tick => s.(phase := Polling(s.phase.cursor, true))
    case LegacyOver => s.(phase := Down)
    case Crash => s.(phase := Down)
  }

  /** A process that has never run here, over any log and any row an earlier build may have left. */
  ghost predicate Init(s: State) {
    Increasing(s.log) && s.phase.Down? && s.handled == [] && s.first.None?
  }

  /** The state after a run, or None when some action was not possible when its turn came. */
  ghost function Run(s: State, acts: seq<Action>): Option<State> {
    if acts == [] then Some(s)
    else
      var before := Run(s, acts[..|acts| - 1]);
      if before.Some? && Enabled(before.value, acts[|acts| - 1])
      then Some(Step(before.value, acts[|acts| - 1]))
      else None
  }

  lemma RunSnoc(s: State, acts: seq<Action>, a: Action)
    ensures Run(s, acts + [a]) ==
      if Run(s, acts).Some? && Enabled(Run(s, acts).value, a) then Some(Step(Run(s, acts).value, a)) else None
  {
    assert (acts + [a])[..|acts|] == acts;
  }

  /** A run goes on from where its first part ended. */
  lemma {:induction false} RunConcat(s: State, acts: seq<Action>, more: seq<Action>)
    requires Run(s, acts).Some?
    ensures Run(s, acts + more) == Run(Run(s, acts).value, more)
  {
    if more == [] {
      assert acts + more == acts;
    } else {
      var rest, a := more[..|more| - 1], more[|more| - 1];
      RunConcat(s, acts, rest);
      assert acts + more == (acts + rest) + [a];
      assert more == rest + [a];
      RunSnoc(s, acts + rest, a);
      RunSnoc(Run(s, acts).value, rest, a);
    }
  }

  lemma StepRuns(s: State, acts: seq<Action>, a: Action, t: State, next: State)
    requires Run(s, acts) == Some(t) && Enabled(t, a) && next == Step(t, a)
    ensures Run(s, acts + [a]) == Some(next)
  {
    RunSnoc(s, acts, a);
  }

  // --- what holds at every point of every run ---

  /** The phase is consistent with the log: a page in progress is ahead of the cursor, and a moved cursor names an event. */
  ghost predicate PhaseOk(s: State)
    requires Increasing(s.log)
  {
    match s.phase
    case Down => true
    case Paging(cursor, left, size, _) =>
      && left <= size <= PAGE_LIMIT
      && (0 < left ==> Seen(s.log, cursor) + left <= |s.log|)
      && (0 < size ==> cursor <= Head(s.log))
    case Saving(cursor) => cursor <= Head(s.log)
    case _ => true
  }

  ghost predicate HandledOk(s: State) {
    forall i :: 0 <= i < |s.handled| ==> s.handled[i] in s.log
  }

  ghost predicate Inv(s: State) {
    && Increasing(s.log) && HandledOk(s) && PhaseOk(s)
    && (s.first.None? ==> s.handled == [] && s.phase.Down?)
  }

  lemma InvGrow(s: State, more: seq<Event>)
    requires Inv(s) && Increasing(s.log + more)
    ensures Inv(s.(log := s.log + more))
  {
    SeenGrows(s.log, more, 0);
    if !s.phase.Down? {
      SeenGrows(s.log, more, s.phase.cursor);
      SeenAll(s.log, s.phase.cursor);
    }
  }

  lemma InvHandle(s: State, phase: Phase)
    requires Inv(s) && !s.phase.Down? && Seen(s.log, s.phase.cursor) < |s.log|
    requires !phase.Down? && phase.cursor == StepHandle(s).version
    requires phase.Paging? ==>
               s.phase.Paging? && 0 < s.phase.left && phase == s.phase.(cursor := phase.cursor, left := s.phase.left - 1)
    ensures Inv(s.(handled := s.handled + [StepHandle(s)], phase := phase))
  {
    SeenAt(s.log, Seen(s.log, s.phase.cursor));
  }

  lemma InvPoll(s: State)
    requires Inv(s) && s.phase.Polling?
    ensures Inv(Step(s, Poll))
  {
    SeenAll(s.log, s.phase.cursor);
  }

  /** Whatever neither grows the log, reads a page nor handles an event. */
  lemma InvMove(s: State, a: Action)
    requires Inv(s) && Enabled(s, a) && !a.Grow? && !a.Poll? && !a.Handle? && !a.Deliver?
    ensures Inv(Step(s, a))
  {
  }

  lemma InvStep(s: State, a: Action)
    requires Inv(s) && Enabled(s, a)
    ensures Inv(Step(s, a))
  {
    hide Inv;
    match a
    case Grow(more) => InvGrow(s, more);
    case Poll => InvPoll(s);
    case Handle => InvHandle(s, s.phase.(cursor := StepHandle(s).version, left := s.phase.left - 1));
    case Deliver => InvHandle(s, Saving(StepHandle(s).version));
    case _ => InvMove(s, a);
  }

  lemma {:induction false} InvRun(s: State, acts: seq<Action>)
    requires Inv(s) && Run(s, acts).Some?
    ensures Inv(Run(s, acts).value)
  {
    if acts != [] {
      InvRun(s, acts[..|acts| - 1]);
      InvStep(Run(s, acts[..|acts| - 1]).value, acts[|acts| - 1]);
    }
  }

  lemma StillInit(s: State, a: Action)
    requires Init(s) && Enabled(s, a)
    ensures a.Load? || Init(Step(s, a))
    ensures a.Load? ==> Step(s, a) == Loaded(s, a) && Step(s, a).first == Some(LoadedCursor(s, a.headOk, a.readable))
  {
  }

  /** What has been recorded of the first load stays. */
  lemma FirstStays(s: State, a: Action)
    requires Enabled(s, a) && s.first.Some?
    ensures Step(s, a).first == s.first
  {
  }

  /** Every run is a stretch that has not loaded yet, or such a stretch, the first load and the rest. */
  ghost predicate SplitsAtLoad(s: State, acts: seq<Action>, n: nat)
    requires n <= |acts|
  {
    && Run(s, acts[..n]).Some? && Init(Run(s, acts[..n]).value)
    && (n < |acts| ==>
          acts[n].Load? && Run(Loaded(Run(s, acts[..n]).value, acts[n]), acts[n + 1..]) == Run(s, acts))
  }

  lemma SplitLater(s: State, before: seq<Action>, a: Action, n: nat)
    requires n < |before| && SplitsAtLoad(s, before, n)
    ensures SplitsAtLoad(s, before + [a], n)
  {
    hide Step, Enabled, Loaded, Init;
    var acts := before + [a];
    assert acts[..n] == before[..n];
    assert acts[n + 1..] == before[n + 1..] + [a];
    RunSnoc(s, before, a);
    RunSnoc(Loaded(Run(s, acts[..n]).value, acts[n]), before[n + 1..], a);
  }

  lemma SplitHere(s: State, before: seq<Action>, a: Action)
    requires Run(s, before).Some? && Init(Run(s, before).value) && Run(s, before + [a]).Some?
    ensures SplitsAtLoad(s, before + [a], if a.Load? then |before| else |before| + 1)
  {
    var acts := before + [a];
    assert acts[..|before|] == before && acts[..|acts|] == acts && acts[|acts|..] == [];
    StillInit(Run(s, before).value, a);
  }

  /** Every run is a stretch that has not loaded yet, or such a stretch, the first load and the rest. */
  lemma {:induction false} FirstLoadOf(s: State, acts: seq<Action>) returns (n: nat)
    requires Init(s) && Run(s, acts).Some?
    ensures n <= |acts| && SplitsAtLoad(s, acts, n)
  {
    if acts == [] {
      return 0;
    }
    hide Step, Enabled, Loaded, SplitsAtLoad;
    var before, a := acts[..|acts| - 1], acts[|acts| - 1];
    assert acts == before + [a];
    n := FirstLoadOf(s, before);
    if n < |before| {
      SplitLater(s, before, a, n);
    } else {
      SplitInit(s, before);
      SplitHere(s, before, a);
      n := if a.Load? then |before| else |before| + 1;
    }
  }

  lemma SplitInit(s: State, acts: seq<Action>)
    requires SplitsAtLoad(s, acts, |acts|)
    ensures Run(s, acts).Some? && Init(Run(s, acts).value)
  {
    assert acts[..|acts|] == acts;
  }

  // --- at least once ---

  /** Every event of the log above `a`, up to and including `b`, has been handled. */
  ghost predicate Covered(log: seq<Event>, handled: seq<Event>, a: u64, b: u64)
    requires Increasing(log)
  {
    forall k :: Seen(log, a) <= k < Seen(log, b) ==> log[k] in handled
  }

  /** No event above `first` and up to `v` is missing, and none can still be recorded there. */
  ghost predicate Safe(log: seq<Event>, handled: seq<Event>, first: u64, v: u64)
    requires Increasing(log)
  {
    v <= first || (v <= Head(log) && Covered(log, handled, first, v))
  }

  lemma CoveredGrows(log: seq<Event>, more: seq<Event>, handled: seq<Event>, a: u64, b: u64)
    requires Increasing(log + more) && Increasing(log)
    requires b <= Head(log) || b <= a
    requires Covered(log, handled, a, b)
    ensures Covered(log + more, handled, a, b)
  {
    SeenGrows(log, more, a);
    SeenGrows(log, more, b);
    if b <= a {
      SeenMonotone(log + more, b, a);
    }
  }

  lemma SafeGrows(log: seq<Event>, more: seq<Event>, handled: seq<Event>, first: u64, v: u64)
    requires Increasing(log + more) && Increasing(log) && Safe(log, handled, first, v)
    ensures Safe(log + more, handled, first, v)
  {
    if first < v {
      SeenGrows(log, more, v);
      CoveredGrows(log, more, handled, first, v);
    }
  }

  /** What `Safe` means: however the log grows, every event between the two has been handled. */
  lemma SafeMeans(log: seq<Event>, handled: seq<Event>, first: u64, v: u64)
    requires Increasing(log) && forall i :: 0 <= i < |handled| ==> handled[i] in log
    ensures Safe(log, handled, first, v) <==>
      forall more :: Increasing(log + more) ==> Covered(log + more, handled, first, v)
  {
    if Safe(log, handled, first, v) {
      forall more | Increasing(log + more) ensures Covered(log + more, handled, first, v) {
        SafeGrows(log, more, handled, first, v);
        if v <= first { SeenMonotone(log + more, v, first); }
      }
    } else if v <= Head(log) {
      assert log + [] == log;
      assert Increasing(log + []) && !Covered(log + [], handled, first, v);
    } else {
      var e := Event(v, "", "", "");
      AppendNew(log, handled, first, e);
      assert Increasing(log + [e]) && !Covered(log + [e], handled, first, v);
    }
  }

  /** One new event that has not been handled leaves a gap up to itself. */
  lemma AppendNew(log: seq<Event>, handled: seq<Event>, first: u64, e: Event)
    requires Increasing(log) && Head(log) < e.version && first < e.version
    requires forall i :: 0 <= i < |handled| ==> handled[i] in log
    ensures Increasing(log + [e]) && Head(log + [e]) == e.version
    ensures e !in handled && !Covered(log + [e], handled, first, e.version)
  {
    var all := log + [e];
    forall i, j ensures Before(all, i, j) {
      assert Before(log, i, j);
      assert Before(log, i, |log| - 1);
    }
    SeenAt(all, |log|);
    SeenIs(all, e.version, |log| + 1);
    if e in handled {
      var i :| 0 <= i < |handled| && handled[i] == e;
      assert handled[i] in log;
      var k :| 0 <= k < |log| && log[k] == e;
      SeenAt(log, k);
    }
    assert Seen(all, first) <= |log|;
    assert all[|log|] == e;
  }

  lemma SafeBelow(log: seq<Event>, handled: seq<Event>, first: u64, v: u64, w: u64)
    requires Increasing(log) && Safe(log, handled, first, v) && w <= v
    ensures Safe(log, handled, first, w)
  {
    if first < w { SeenMonotone(log, w, v); }
  }

  lemma SafeCovers(log: seq<Event>, handled: seq<Event>, first: u64, v: u64)
    requires Increasing(log) && Safe(log, handled, first, v)
    ensures Covered(log, handled, first, v)
  {
    if v <= first { SeenMonotone(log, v, first); }
  }

  ghost predicate SafeAt(s: State, v: u64)
    requires Increasing(s.log)
  {
    s.first.None? || Safe(s.log, s.handled, s.first.value, v)
  }

  /** The guarantee at one point of a run: nothing above the first cursor is missing below the cursor in memory. */
  ghost predicate Kept(s: State)
    requires Increasing(s.log)
  {
    !s.phase.Down? ==> SafeAt(s, s.phase.cursor)
  }

  /** What has been handled has no gap. */
  ghost predicate Whole(s: State)
    requires Increasing(s.log)
  {
    forall i :: 0 <= i < |s.handled| ==> SafeAt(s, s.handled[i].version)
  }

  ghost predicate Good(s: State) {
    Inv(s) && Whole(s) && Kept(s)
  }

  /** A test of one event: the newest one at or below `v` has been handled, or lies at or below the first cursor. */
  ghost predicate Clear(s: State, v: u64)
    requires Increasing(s.log)
  {
    s.first.None? || v <= s.first.value ||
    (v <= Head(s.log) && (Seen(s.log, v) <= Seen(s.log, s.first.value) || s.log[Seen(s.log, v) - 1] in s.handled))
  }

  /** Where nothing handled has a gap below it, that one event decides. */
  lemma ClearIff(s: State, v: u64)
    requires Inv(s) && Whole(s)
    ensures SafeAt(s, v) <==> Clear(s, v)
  {
    if s.first.Some? && s.first.value < v <= Head(s.log) {
      var first, n := s.first.value, Seen(s.log, v);
      SeenMonotone(s.log, first, v);
      if Seen(s.log, first) < n {
        SeenAt(s.log, n - 1);
        if s.log[n - 1] in s.handled {
          var i :| 0 <= i < |s.handled| && s.handled[i] == s.log[n - 1];
          assert SafeAt(s, s.handled[i].version);
          SafeCovers(s.log, s.handled, first, s.handled[i].version);
        }
      }
    }
  }

  lemma GoodGrow(s: State, more: seq<Event>)
    requires Good(s) && Increasing(s.log + more)
    ensures Good(s.(log := s.log + more))
  {
    InvGrow(s, more);
    if s.first.Some? {
      forall v | SafeAt(s, v) ensures Safe(s.log + more, s.handled, s.first.value, v) {
        SafeGrows(s.log, more, s.handled, s.first.value, v);
      }
    }
  }

  /** Handling the next event extends what is covered by exactly that event. */
  lemma SafeHandle(s: State, v: u64)
    requires Inv(s) && Kept(s) && !s.phase.Down? && Seen(s.log, s.phase.cursor) < |s.log|
    ensures
      var t := s.(handled := s.handled + [StepHandle(s)]);
      && SafeAt(t, StepHandle(s).version)
      && (SafeAt(s, v) ==> SafeAt(t, v))
  {
    var e := StepHandle(s);
    var n := Seen(s.log, s.phase.cursor);
    SeenAt(s.log, n);
    var t := s.(handled := s.handled + [e]);
    assert forall x :: x in s.handled ==> x in t.handled;
    assert e in t.handled;
    if s.first.Some? && s.first.value < e.version {
      SafeCovers(s.log, s.handled, s.first.value, s.phase.cursor);
      assert Covered(t.log, t.handled, s.first.value, e.version);
    }
  }

  lemma GoodHandle(s: State, phase: Phase)
    requires Good(s) && !s.phase.Down? && Seen(s.log, s.phase.cursor) < |s.log|
    requires !phase.Down? && phase.cursor == StepHandle(s).version
    requires Inv(s.(handled := s.handled + [StepHandle(s)], phase := phase))
    ensures Good(s.(handled := s.handled + [StepHandle(s)], phase := phase))
  {
    hide Inv, SafeAt, StepHandle;
    InvLog(s);
    var t := s.(handled := s.handled + [StepHandle(s)], phase := phase);
    forall v | SafeAt(s, v) || v == StepHandle(s).version ensures SafeAt(t, v) {
      SafeHandle(s, v);
      SafeAtOf(t, s.(handled := t.handled), v);
    }
  }

  lemma InvLog(s: State)
    requires Inv(s)
    ensures Increasing(s.log)
  {
  }

  lemma SafeAtOf(s: State, t: State, v: u64)
    requires Increasing(s.log) && s.log == t.log && s.handled == t.handled && s.first == t.first && SafeAt(t, v)
    ensures SafeAt(s, v)
  {
  }

  /** Whatever neither grows the log, handles an event nor loads keeps the cursor or gives it up. */
  lemma GoodMove(s: State, a: Action)
    requires Good(s) && Enabled(s, a) && !a.Grow? && !a.Handle? && !a.Deliver? && !a.Load?
    ensures Good(Step(s, a))
  {
    InvStep(s, a);
    var t := Step(s, a);
    assert t.log == s.log && t.handled == s.handled && t.first == s.first;
    assert t.phase.Down? || t.phase.cursor == s.phase.cursor;
  }

  lemma GoodStep(s: State, a: Action)
    requires Good(s) && Enabled(s, a) && !a.Load?
    ensures Good(Step(s, a))
  {
    InvStep(s, a);
    if a.Grow? {
      GoodGrow(s, a.more);
    } else if a.Handle? {
      GoodHandle(s, s.phase.(cursor := StepHandle(s).version, left := s.phase.left - 1));
    } else if a.Deliver? {
      GoodHandle(s, Saving(StepHandle(s).version));
    } else {
      GoodMove(s, a);
    }
  }

  /** A load keeps the guarantee exactly when one event has been handled: the newest at or below the cursor it loads. */
  ghost predicate Harmless(s: State, load: Action)
    requires Increasing(s.log) && load.Load?
  {
    Clear(s, LoadedCursor(s, load.headOk, load.readable))
  }

  lemma LoadKeepsIff(s: State, load: Action)
    requires Good(s) && load.Load? && Enabled(s, load)
    ensures Increasing(Loaded(s, load).log)
    ensures Kept(Loaded(s, load)) <==> Harmless(s, load)
    ensures Kept(Loaded(s, load)) ==> Good(Loaded(s, load))
  {
    InvStep(s, load);
    ClearIff(s, LoadedCursor(s, load.headOk, load.readable));
  }

  /** The guarantee holds at every point of the run. */
  ghost predicate AlwaysKept(s: State, acts: seq<Action>) {
    && Run(s, acts).Some? && Increasing(Run(s, acts).value.log) && Kept(Run(s, acts).value)
    && (acts == [] || AlwaysKept(s, acts[..|acts| - 1]))
  }

  /** Every load of the run is harmless where it happens. */
  ghost predicate LoadsHarmless(s: State, acts: seq<Action>) {
    acts == [] ||
    (var before, a := Run(s, acts[..|acts| - 1]), acts[|acts| - 1];
     && LoadsHarmless(s, acts[..|acts| - 1])
     && (a.Load? ==> before.Some? && Increasing(before.value.log) && Harmless(before.value, a)))
  }

  /**
    At least once, exactly: over any interleaving of pages, stream events, replays, lost saves, reconnects and crashes,
    nothing is ever missing below the cursor if and only if every load is harmless where it happens.
   */
  lemma KeptIff(s: State, acts: seq<Action>)
    requires Init(s) && Run(s, acts).Some?
    ensures AlwaysKept(s, acts) <==> LoadsHarmless(s, acts)
  {
    KeptRun(s, acts);
  }

  lemma {:induction false} KeptRun(s: State, acts: seq<Action>)
    requires Good(s) && Run(s, acts).Some?
    ensures AlwaysKept(s, acts) <==> LoadsHarmless(s, acts)
    ensures AlwaysKept(s, acts) ==> Good(Run(s, acts).value)
  {
    hide Good, Step, Enabled, Harmless, Kept, Loaded;
    assert Good(s) ==> Increasing(s.log) && Kept(s) by { GoodParts(s); }
    if acts != [] {
      var before, a := acts[..|acts| - 1], acts[|acts| - 1];
      KeptRun(s, before);
      var t := Run(s, before).value;
      if AlwaysKept(s, before) {
        GoodParts(t);
        StepLoads(t, a);
        if a.Load? {
          LoadKeepsIff(t, a);
        } else {
          GoodStep(t, a);
          GoodParts(Step(t, a));
        }
      }
    }
  }

  lemma GoodParts(s: State)
    requires Good(s)
    ensures Increasing(s.log) && Inv(s) && Kept(s)
  {
  }

  lemma StepLoads(s: State, a: Action)
    requires Enabled(s, a)
    ensures a.Load? ==> Step(s, a) == Loaded(s, a)
  {
  }

  // --- how far a row can be trusted ---

  const MAX_VERSION: u64 := TWO_64 - 1

  predicate AllReadable(acts: seq<Action>) {
    forall i :: 0 <= i < |acts| ==> acts[i].Load? ==> acts[i].readable
  }

  /** The highest cursor that a load which can read the row may come back with before the next save. */
  function Reach(s: State): u64 {
    if s.row.None? then MAX_VERSION else Stored(s)
  }

  ghost predicate Secure(s: State)
    requires Increasing(s.log)
  {
    SafeAt(s, Reach(s))
  }

  /** The guarantee survives every continuation whose loads can read the row. */
  ghost predicate SurvivesReadable(s: State) {
    forall acts :: Run(s, acts).Some? && AllReadable(acts) ==>
      Increasing(Run(s, acts).value.log) && Kept(Run(s, acts).value)
  }

  lemma SecureGrow(s: State, more: seq<Event>)
    requires Good(s) && Secure(s) && Increasing(s.log + more)
    ensures Secure(s.(log := s.log + more))
  {
    if s.first.Some? { SafeGrows(s.log, more, s.handled, s.first.value, Reach(s)); }
  }

  lemma SecureHandle(s: State, phase: Phase)
    requires Good(s) && Secure(s) && !s.phase.Down? && Seen(s.log, s.phase.cursor) < |s.log|
    ensures Secure(s.(handled := s.handled + [StepHandle(s)], phase := phase))
  {
    SafeHandle(s, Reach(s));
  }

  lemma SecureLoad(s: State, load: Action)
    requires Good(s) && Secure(s) && s.first.Some? && load.Load? && load.readable && Enabled(s, load)
    ensures Good(Loaded(s, load)) && Secure(Loaded(s, load))
  {
    InvStep(s, load);
    SafeBelow(s.log, s.handled, s.first.value, Reach(s), LoadedCursor(s, load.headOk, load.readable));
  }

  lemma SecureMove(s: State, a: Action)
    requires Good(s) && Secure(s) && Enabled(s, a) && !a.Grow? && !a.Handle? && !a.Deliver? && !a.Load?
    ensures Secure(Step(s, a))
  {
    var t := Step(s, a);
    assert t.log == s.log && t.handled == s.handled && t.first == s.first;
    assert Reach(t) == Reach(s) || (!s.phase.Down? && Reach(t) == s.phase.cursor);
  }

  lemma SecureStep(s: State, a: Action)
    requires Good(s) && Secure(s) && s.first.Some? && Enabled(s, a) && (a.Load? ==> a.readable)
    ensures Good(Step(s, a)) && Secure(Step(s, a)) && Step(s, a).first == s.first
  {
    FirstStays(s, a);
    if a.Load? {
      SecureLoad(s, a);
    } else {
      GoodStep(s, a);
      if a.Grow? {
        SecureGrow(s, a.more);
      } else if a.Handle? {
        SecureHandle(s, s.phase.(cursor := StepHandle(s).version, left := s.phase.left - 1));
      } else if a.Deliver? {
        SecureHandle(s, Saving(StepHandle(s).version));
      } else {
        SecureMove(s, a);
      }
    }
  }

  lemma AllReadableSnoc(acts: seq<Action>, a: Action)
    ensures AllReadable(acts + [a]) <==> AllReadable(acts) && (a.Load? ==> a.readable)
  {
    if AllReadable(acts + [a]) {
      assert (acts + [a])[|acts|] == a;
      assert forall i :: 0 <= i < |acts| ==> (acts + [a])[i] == acts[i];
    }
  }

  lemma {:induction false} SecureRun(s: State, acts: seq<Action>)
    requires Good(s) && Secure(s) && s.first.Some? && Run(s, acts).Some? && AllReadable(acts)
    ensures
      var t := Run(s, acts).value;
      Good(t) && Secure(t) && t.first == s.first
  {
    if acts != [] {
      hide Good, Secure, Step, Enabled;
      var before, a := acts[..|acts| - 1], acts[|acts| - 1];
      assert acts == before + [a];
      AllReadableSnoc(before, a);
      SecureRun(s, before);
      SecureStep(Run(s, before).value, a);
    }
  }

  /** The run that goes wrong otherwise: the log grows if it has to, the process dies, and the next load trusts the row. */
  lemma InsecureLoses(s: State)
    requires Good(s) && s.first.Some? && !Secure(s)
    ensures !SurvivesReadable(s)
  {
    var first, top := s.first.value, Reach(s);
    var load := Load(true, true, true);
    if top <= Head(s.log) {
      DownAfter(s, [], s);
      var t := s.(phase := Down);
      assert !SafeAt(t, LoadedCursor(t, true, true));
      LoadLoses(s, [Crash], t, load);
    } else {
      var e := Event(if Head(s.log) < first then first + 1 else Head(s.log) + 1, "", "", "");
      AppendNew(s.log, s.handled, first, e);
      StepRuns(s, [], Grow([e]), s, s.(log := s.log + [e]));
      assert [] + [Grow([e])] == [Grow([e])];
      DownAfter(s, [Grow([e])], s.(log := s.log + [e]));
      var t := s.(log := s.log + [e], phase := Down);
      assert LoadedCursor(t, true, true) == e.version;
      LoadLoses(s, [Grow([e])] + [Crash], t, load);
    }
  }

  lemma DownAfter(s: State, acts: seq<Action>, t: State)
    requires Run(s, acts) == Some(t) && Increasing(t.log)
    ensures Run(s, acts + [Crash]) == Some(t.(phase := Down))
    ensures [] + [Crash] == [Crash]
  {
    StepRuns(s, acts, Crash, t, t.(phase := Down));
  }

  lemma LoadLoses(s: State, acts: seq<Action>, t: State, load: Action)
    requires Run(s, acts) == Some(t) && Increasing(t.log) && t.phase.Down? && t.first.Some?
    requires load.Load? && load.readable && AllReadable(acts)
    requires !SafeAt(t, LoadedCursor(t, load.headOk, true))
    ensures !SurvivesReadable(s)
  {
    StepRuns(s, acts, load, t, Loaded(t, load));
    AllReadableSnoc(acts, load);
    assert Run(s, acts + [load]) == Some(Loaded(t, load));
    assert !Kept(Loaded(t, load));
  }

  /**
    From any point of a run in which nothing is missing yet, the guarantee survives every continuation whose loads can
    read the row if and only if nothing is missing, or can come to be, below what such a load may come back with.
   */
  lemma SecureIff(s: State)
    requires Good(s) && s.first.Some?
    ensures SurvivesReadable(s) <==> Secure(s)
  {
    if Secure(s) {
      forall acts | Run(s, acts).Some? && AllReadable(acts)
        ensures Increasing(Run(s, acts).value.log) && Kept(Run(s, acts).value)
      {
        SecureRun(s, acts);
        GoodParts(Run(s, acts).value);
      }
    } else {
      InsecureLoses(s);
    }
  }

  /** The first load of a process leaves a row that later loads can trust. */
  ghost predicate FirstLoadOk(s: State, load: Action)
    requires Increasing(s.log) && load.Load?
  {
    if RowFound(s, load.readable) then !load.headOk || Stored(s) <= Head(s.log) || load.saved
    else if load.headOk then load.saved || Reach(s) <= Head(s.log)
    else s.row.Some? && (Stored(s) == 0 || (Stored(s) <= Head(s.log) && Seen(s.log, Stored(s)) == 0))
  }

  /**
    Where the guarantee begins: it survives every continuation with readable loads if and only if the first load found
    the row and did not have to write it back, or its save worked, or it failed to read a row that is not past the head
    it started from, or it could read nothing and the row it missed is below every event.
   */
  lemma FirstLoadIff(s: State, load: Action)
    requires Init(s) && load.Load?
    ensures SurvivesReadable(Loaded(s, load)) <==> FirstLoadOk(s, load)
  {
    FirstLoadGood(s, load);
    SecureIff(Loaded(s, load));
  }

  lemma FirstLoadGood(s: State, load: Action)
    requires Init(s) && load.Load?
    ensures
      var t := Loaded(s, load);
      && t.first == Some(LoadedCursor(s, load.headOk, load.readable))
      && Good(t) && (Secure(t) <==> FirstLoadOk(s, load))
  {
    var t := Loaded(s, load);
    var first := t.first.value;
    SeenIs(s.log, 0, 0);
    if first < Reach(t) <= Head(s.log) {
      SeenMonotone(s.log, first, Reach(t));
      NothingHandled(s.log, first, Reach(t));
    }
  }

  lemma NothingHandled(log: seq<Event>, a: u64, b: u64)
    requires Increasing(log)
    ensures Covered(log, [], a, b) <==> Seen(log, b) <= Seen(log, a)
  {
    if Seen(log, a) < Seen(log, b) {
      assert log[Seen(log, a)] !in [];
    }
  }

  /**
    At least once: after such a first load, over any interleaving in which the loads can read the row, every event
    between the first cursor and the stored one has been handled, and so has every event up to the cursor in memory.
   */
  lemma AtLeastOnce(s: State, load: Action, acts: seq<Action>)
    requires Init(s) && load.Load? && FirstLoadOk(s, load)
    requires Run(Loaded(s, load), acts).Some? && AllReadable(acts)
    ensures
      var first, t := LoadedCursor(s, load.headOk, load.readable), Run(Loaded(s, load), acts).value;
      && Increasing(t.log)
      && Covered(t.log, t.handled, first, Stored(t))
      && Covered(t.log, t.handled, first, Current(t))
  {
    FirstLoadGood(s, load);
    SecureRun(Loaded(s, load), acts);
    var first, t := LoadedCursor(s, load.headOk, load.readable), Run(Loaded(s, load), acts).value;
    SafeBelow(t.log, t.handled, first, Reach(t), Stored(t));
    SafeCovers(t.log, t.handled, first, Stored(t));
    SafeCovers(t.log, t.handled, first, Current(t));
  }

  /**
    One load of a process that has been secure so far: it loses something if and only if it cannot read the row, can
    read the head, and the newest event of the log lies above the first cursor and was never handled. If it loses
    nothing, it leaves the process secure.
   */
  lemma LoadInSecure(s: State, load: Action)
    requires Good(s) && Secure(s) && s.first.Some? && load.Load? && Enabled(s, load)
    ensures Increasing(Loaded(s, load).log)
    ensures Kept(Loaded(s, load)) <==>
      load.readable || !load.headOk || Head(s.log) <= s.first.value || s.log[|s.log| - 1] in s.handled
    ensures Kept(Loaded(s, load)) ==> Good(Loaded(s, load)) && Secure(Loaded(s, load))
  {
    LoadKeepsIff(s, load);
    if load.readable {
      SecureLoad(s, load);
    } else if load.headOk {
      SeenAll(s.log, Head(s.log));
      SeenAll(s.log, s.first.value);
    }
  }

  // --- two runs that lose an event ---

  /** The row cannot be read once, and an event that was not handled yet is skipped. */
  lemma UnreadableRowLosesAnEvent(s: State, acts: seq<Action>, e: Event)
    requires Init(s) && s.log == [] && s.row == Some(0) && 0 < e.version
    requires acts == [Load(true, true, true), Grow([e]), Crash, Load(true, false, true)]
    ensures Run(s, acts).Some?
    ensures
      var t := Run(s, acts).value;
      t.first == Some(0) && t.log == [e] && t.row == Some(ToInt64(e.version)) && t.handled == []
  {
    LosingRun(s, acts, e);
  }

  /** The save of the first load is lost, and although every load can read what there is, an event is skipped. */
  lemma LostFirstSaveLosesAnEvent(s: State, acts: seq<Action>, e: Event)
    requires Init(s) && s.log == [] && s.row == None && 0 < e.version
    requires acts == [Load(true, true, false), Grow([e]), Crash, Load(true, true, true)]
    ensures AllReadable(acts) && Run(s, acts).Some?
    ensures
      var t := Run(s, acts).value;
      t.first == Some(0) && t.log == [e] && t.row == Some(ToInt64(e.version)) && t.handled == []
  {
    LosingRun(s, acts, e);
  }

  lemma LosingRun(s: State, acts: seq<Action>, e: Event)
    requires Init(s) && s.log == [] && 0 < e.version
    requires |acts| == 4 && acts[0].Load? && acts[1] == Grow([e]) && acts[2] == Crash && acts[3].Load?
    ensures
      var s1 := Loaded(s, acts[0]);
      var s3 := s1.(log := [e], phase := Down);
      Run(s, acts) == Some(Loaded(s3, acts[3]))
  {
    var s1 := Loaded(s, acts[0]);
    StepRuns(s, [], acts[0], s, s1);
    var s2 := s1.(log := [e]);
    assert s1.log + [e] == [e];
    assert [] + [acts[0]] == [acts[0]];
    StepRuns(s, [acts[0]], acts[1], s1, s2);
    assert [acts[0]] + [acts[1]] == acts[..2];
    var s3 := s2.(phase := Down);
    StepRuns(s, acts[..2], acts[2], s2, s3);
    assert acts[..2] + [acts[2]] == acts[..3];
    StepRuns(s, acts[..3], acts[3], s3, Loaded(s3, acts[3]));
    assert acts[..3] + [acts[3]] == acts;
  }

  // --- exactly once ---

  predicate IsLost(a: Action) {
    match a
    case Load(_, _, saved) => !saved
    case EndPage(saved) => !saved
    case SaveStream(saved) => !saved
    case _ => false
  }

  /** No save failed. */
  predicate NoLostSave(acts: seq<Action>) {
    forall i :: 0 <= i < |acts| ==> !IsLost(acts[i])
  }

  /** How many saves failed. */
  ghost function LostSaves(acts: seq<Action>): nat {
    if acts == [] then 0 else LostSaves(acts[..|acts| - 1]) + if IsLost(acts[|acts| - 1]) then 1 else 0
  }

  lemma {:induction false} NoLostSaveIff(acts: seq<Action>)
    ensures NoLostSave(acts) <==> LostSaves(acts) == 0
  {
    if acts != [] {
      var before, a := acts[..|acts| - 1], acts[|acts| - 1];
      NoLostSaveIff(before);
      assert forall i :: 0 <= i < |before| ==> acts[i] == before[i];
      if NoLostSave(acts) { assert !IsLost(a); }
    }
  }

  /** How often a run loads, asks for the stream, is told that there is none, polls on a tick for that reason, and dies. */
  datatype Shape = Shape(loads: nat, asks: nat, legacies: nat, ticks: nat, crashes: nat)

  function Counted(h: Shape, a: Action): Shape {
    match a
    case Load(_, _, _) => h.(loads := h.loads + 1)
    case Subscribe => h.(asks := h.asks + 1)
    case SubscribeFailed => h.(asks := h.asks + 1)
    case Legacy => h.(asks := h.asks + 1, legacies := h.legacies + 1)
    case Tick => h.(ticks := h.ticks + 1)
    case Crash => h.(crashes := h.crashes + 1)
    case _ => h
  }

  ghost function ShapeOf(acts: seq<Action>): Shape {
    if acts == [] then Shape(0, 0, 0, 0, 0) else Counted(ShapeOf(acts[..|acts| - 1]), acts[|acts| - 1])
  }

  lemma TallySnoc(acts: seq<Action>, a: Action)
    ensures LostSaves(acts + [a]) == LostSaves(acts) + if IsLost(a) then 1 else 0
    ensures ShapeOf(acts + [a]) == Counted(ShapeOf(acts), a)
  {
    assert (acts + [a])[..|acts|] == acts;
  }

  predicate NoCrash(acts: seq<Action>) {
    forall i :: 0 <= i < |acts| ==> !acts[i].Crash?
  }

  /** What has been handled is the slice of the log from the first cursor to the current one, and the row keeps up. */
  ghost predicate Exact(s: State) {
    && Increasing(s.log) && s.first.Some? && s.row.Some?
    && s.first.value <= Head(s.log) && Current(s) <= Head(s.log)
    && Seen(s.log, s.first.value) <= Seen(s.log, Current(s))
    && s.handled == s.log[Seen(s.log, s.first.value)..Seen(s.log, Current(s))]
    && (s.phase.Paging? || s.phase.Saving? || Current(s) == Stored(s))
    && (s.phase.Paging? && s.phase.size == 0 ==> Current(s) == Stored(s))
  }

  lemma ExactGrow(s: State, more: seq<Event>)
    requires Exact(s) && Increasing(s.log + more)
    ensures Exact(s.(log := s.log + more))
  {
    SeenGrows(s.log, more, s.first.value);
    SeenGrows(s.log, more, Current(s));
  }

  lemma ExactHandle(s: State, phase: Phase)
    requires Exact(s) && !s.phase.Down? && Seen(s.log, s.phase.cursor) < |s.log|
    requires phase.Saving? || (phase.Paging? && 0 < phase.size)
    requires phase.cursor == StepHandle(s).version
    ensures Exact(s.(handled := s.handled + [StepHandle(s)], phase := phase))
  {
    var n := Seen(s.log, s.phase.cursor);
    SeenAt(s.log, n);
    SliceSnoc(s.log, Seen(s.log, s.first.value), n);
  }

  lemma SliceSnoc<T>(s: seq<T>, a: nat, b: nat)
    requires a <= b < |s|
    ensures s[a..b] + [s[b]] == s[a..b + 1]
  {
  }

  /** A step that only moves the phase or writes the row the cursor it holds. */
  lemma ExactMove(s: State, t: State)
    requires Exact(s) && t.row.Some?
    requires t.log == s.log && t.handled == s.handled && t.first == s.first && Current(t) == Current(s)
    requires t.phase.Paging? || t.phase.Saving? || Current(t) == Stored(t)
    requires t.phase.Paging? && t.phase.size == 0 ==> Current(t) == Stored(t)
    ensures Exact(t)
  {
  }

  lemma ExactStep(s: State, a: Action)
    requires Inv(s) && Exact(s) && Enabled(s, a) && !IsLost(a) && !a.Crash?
    requires a.Load? ==> a.readable
    ensures Exact(Step(s, a))
  {
    if a.Grow? {
      ExactGrow(s, a.more);
    } else if a.Handle? {
      ExactHandle(s, s.phase.(cursor := StepHandle(s).version, left := s.phase.left - 1));
    } else if a.Deliver? {
      ExactHandle(s, Saving(StepHandle(s).version));
    } else {
      ExactMove(s, Step(s, a));
    }
  }

  lemma {:induction false} ExactRun(s: State, acts: seq<Action>)
    requires Inv(s) && Exact(s) && Run(s, acts).Some?
    requires NoLostSave(acts) && NoCrash(acts) && AllReadable(acts)
    ensures Exact(Run(s, acts).value) && Run(s, acts).value.first == s.first
  {
    if acts != [] {
      hide Exact, Inv, Step, Enabled;
      var before, a := acts[..|acts| - 1], acts[|acts| - 1];
      ExactRun(s, before);
      InvRun(s, before);
      ExactFirst(Run(s, before).value);
      FirstStays(Run(s, before).value, a);
      ExactStep(Run(s, before).value, a);
    }
  }

  lemma ExactFirst(s: State)
    requires Exact(s)
    ensures s.first.Some?
  {
  }

  /**
    Exactly once: with no crash, no lost save and a readable row, what has been handled is the slice of the log from
    the first cursor to the current one, in order and once each, across every reconnect and change of transport. The
    first load must have found a row at or below the head, or have been able to write one.
   */
  lemma ExactlyOnce(s: State, load: Action, acts: seq<Action>)
    requires Init(s) && load.Load? && load.saved
    requires load.headOk || (RowFound(s, load.readable) && Stored(s) <= Head(s.log))
    requires Run(Loaded(s, load), acts).Some?
    requires NoLostSave(acts) && NoCrash(acts) && AllReadable(acts)
    ensures
      var first, t := LoadedCursor(s, load.headOk, load.readable), Run(Loaded(s, load), acts).value;
      && Increasing(t.log)
      && Seen(t.log, first) <= Seen(t.log, Current(t))
      && t.handled == t.log[Seen(t.log, first)..Seen(t.log, Current(t))]
      && (t.phase.Down? || t.phase.Streaming? || t.phase.Drained? ==> Current(t) == Stored(t))
  {
    FirstLoadGood(s, load);
    assert Exact(Loaded(s, load));
    ExactRun(Loaded(s, load), acts);
  }
}
