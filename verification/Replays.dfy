/**
  How much of the log can be handled twice: where the events handled so far can lie beyond the stored cursor, which is
  where a process that dies starts again, when no save fails.
 */
module Replays {
  import opened Basics
  import opened EventLog
  import opened CursorProtocol

  /** No handled event lies more than `n` log entries after cursor `v`. */
  ghost predicate Within(log: seq<Event>, handled: seq<Event>, v: u64, n: nat)
    requires Increasing(log)
  {
    forall i :: 0 <= i < |handled| ==> Seen(log, handled[i].version) <= Seen(log, v) + n
  }

  /** How far past the stored cursor a phase may have handled events. */
  function Slack(p: Phase): nat {
    match p
    case Drained(_, _) => 0
    case Streaming(_) => 0
    case Saving(_) => 1
    case _ => PAGE_LIMIT
  }

  /** How far past the end of a page handled events may lie: a short page is the end of the log. */
  function Beyond(size: nat): nat {
    if size < PAGE_LIMIT then 0 else PAGE_LIMIT
  }

  /** Where the cursor in memory stands between the stored one and the events handled. */
  ghost predicate InStep(s: State)
    requires Increasing(s.log)
  {
    match s.phase
    case Down => true
    case Polling(cursor, _) => cursor <= Stored(s) && Within(s.log, s.handled, cursor, 2 * PAGE_LIMIT)
    case Paging(cursor, left, size, _) =>
      && Seen(s.log, cursor) + left <= Seen(s.log, Stored(s)) + size
      && Within(s.log, s.handled, cursor, left + Beyond(size))
      && (size == 0 ==> cursor <= Stored(s) && Within(s.log, s.handled, Stored(s), 0))
    case Saving(cursor) => Within(s.log, s.handled, cursor, 0)
    case _ => s.phase.cursor <= Stored(s) && Within(s.log, s.handled, s.phase.cursor, 0)
  }

  ghost predicate Near(s: State) {
    Increasing(s.log) && Within(s.log, s.handled, Stored(s), Slack(s.phase)) && InStep(s)
  }

  lemma WithinGrows(log: seq<Event>, more: seq<Event>, handled: seq<Event>, v: u64, n: nat)
    requires Increasing(log) && Increasing(log + more) && Within(log, handled, v, n)
    requires forall i :: 0 <= i < |handled| ==> handled[i] in log
    ensures Within(log + more, handled, v, n)
  {
    SeenGrows(log, more, v);
    forall i | 0 <= i < |handled|
      ensures Seen(log + more, handled[i].version) == Seen(log, handled[i].version)
    {
      assert handled[i] in log;
      var k :| 0 <= k < |log| && log[k] == handled[i];
      SeenAt(log, k);
      SeenGrows(log, more, handled[i].version);
    }
  }

  /** A cursor that lies further on may have less beyond it. */
  lemma WithinFrom(log: seq<Event>, handled: seq<Event>, v: u64, n: nat, w: u64, m: nat)
    requires Increasing(log) && Within(log, handled, v, n) && Seen(log, v) + n <= Seen(log, w) + m
    ensures Within(log, handled, w, m)
  {
  }

  /** Handled events are in the log, so none of them ranks above its length. */
  lemma WithinLog(s: State, v: u64, n: nat)
    requires Inv(s) && |s.log| <= Seen(s.log, v) + n
    ensures Within(s.log, s.handled, v, n)
  {
  }

  lemma WithinSnoc(log: seq<Event>, handled: seq<Event>, e: Event, v: u64, n: nat)
    requires Increasing(log) && Within(log, handled, v, n) && Seen(log, e.version) <= Seen(log, v) + n
    ensures Within(log, handled + [e], v, n)
  {
  }

  lemma NearGrow(s: State, more: seq<Event>)
    requires Inv(s) && Near(s) && Increasing(s.log + more)
    ensures Near(s.(log := s.log + more))
  {
    hide Within;
    var all := s.log + more;
    SeenGrows(s.log, more, Stored(s));
    WithinGrows(s.log, more, s.handled, Stored(s), Slack(s.phase));
    if !s.phase.Down? {
      var cursor := s.phase.cursor;
      SeenGrows(s.log, more, cursor);
      if s.phase.Polling? {
        WithinGrows(s.log, more, s.handled, cursor, 2 * PAGE_LIMIT);
      } else if s.phase.Paging? {
        var left, size := s.phase.left, s.phase.size;
        WithinGrows(s.log, more, s.handled, cursor, left + Beyond(size));
        if size == 0 {
          WithinGrows(s.log, more, s.handled, Stored(s), 0);
          SeenMonotone(all, cursor, Stored(s));
        } else if 0 < left {
          SeenAll(s.log, cursor);
        }
      } else {
        WithinGrows(s.log, more, s.handled, cursor, 0);
      }
    }
  }

  lemma NearHandled(s: State, v: u64, n: nat)
    requires Inv(s) && !s.phase.Down? && Seen(s.log, s.phase.cursor) < |s.log|
    requires Within(s.log, s.handled, v, n) && Seen(s.log, s.phase.cursor) < Seen(s.log, v) + n
    ensures Within(s.log, s.handled + [StepHandle(s)], v, n)
    ensures Seen(s.log, StepHandle(s).version) == Seen(s.log, s.phase.cursor) + 1
  {
    SeenAt(s.log, Seen(s.log, s.phase.cursor));
    WithinSnoc(s.log, s.handled, StepHandle(s), v, n);
  }

  lemma NearPageHandle(s: State)
    requires Inv(s) && Near(s) && Enabled(s, Handle)
    ensures Near(Step(s, Handle))
  {
    hide Within;
    var cursor, left, size := s.phase.cursor, s.phase.left, s.phase.size;
    NearHandled(s, Stored(s), PAGE_LIMIT);
    NearHandled(s, cursor, left + Beyond(size));
    var t := Step(s, Handle);
    WithinFrom(s.log, t.handled, cursor, left + Beyond(size), t.phase.cursor, left - 1 + Beyond(size));
  }

  lemma NearDeliver(s: State)
    requires Inv(s) && Near(s) && Enabled(s, Deliver)
    ensures Near(Step(s, Deliver))
  {
    hide Within;
    var cursor, t := s.phase.cursor, Step(s, Deliver);
    SeenMonotone(s.log, cursor, Stored(s));
    WithinFrom(s.log, s.handled, cursor, 0, Stored(s), 1);
    WithinFrom(s.log, s.handled, cursor, 0, cursor, 1);
    NearHandled(s, Stored(s), 1);
    NearHandled(s, cursor, 1);
    WithinFrom(s.log, t.handled, cursor, 1, t.phase.cursor, 0);
  }

  lemma NearPoll(s: State)
    requires Inv(s) && Near(s) && Enabled(s, Poll)
    ensures Near(Step(s, Poll))
  {
    hide Within;
    var cursor, size := s.phase.cursor, |Page(s.log, s.phase.cursor)|;
    SeenMonotone(s.log, cursor, Stored(s));
    if size < PAGE_LIMIT {
      WithinLog(s, cursor, size);
      if size == 0 { WithinLog(s, Stored(s), 0); }
    } else {
      WithinFrom(s.log, s.handled, cursor, 2 * PAGE_LIMIT, cursor, size + Beyond(size));
    }
  }

  lemma NearEndPage(s: State)
    requires Near(s) && Enabled(s, EndPage(true))
    ensures Near(Step(s, EndPage(true)))
  {
    hide Within;
    var cursor, size, t := s.phase.cursor, s.phase.size, Step(s, EndPage(true));
    if 0 < size {
      assert Stored(t) == cursor;
      WithinFrom(s.log, s.handled, cursor, Beyond(size), cursor, Slack(t.phase));
      WithinFrom(s.log, s.handled, cursor, Beyond(size), cursor, 2 * PAGE_LIMIT);
    }
  }

  lemma NearSaveStream(s: State)
    requires Near(s) && Enabled(s, SaveStream(true))
    ensures Near(Step(s, SaveStream(true)))
  {
    hide Within;
    assert Stored(Step(s, SaveStream(true))) == s.phase.cursor;
  }

  /** No handled event lies past entry 1000 of the log: two pages from its beginning. */
  ghost predicate Shallow(s: State)
    requires Increasing(s.log)
  {
    forall i :: 0 <= i < |s.handled| ==> Seen(s.log, s.handled[i].version) <= 1000
  }

  /** A load that could read neither the row nor the head, and so starts again from 0. */
  predicate IsBlind(a: Action) {
    a.Load? && !a.headOk && !a.readable
  }

  lemma NearLoad(s: State, load: Action)
    requires Inv(s) && Near(s) && load.Load? && load.saved && Enabled(s, load)
    requires IsBlind(load) ==> Shallow(s)
    ensures Near(Loaded(s, load))
  {
    var t := Loaded(s, load);
    SeenIs(s.log, 0, 0);
    if LoadSaves(s, load.headOk, load.readable) {
      SeenAll(s.log, Head(s.log));
      WithinLog(s, Head(s.log), 0);
    } else {
      assert Within(s.log, s.handled, t.phase.cursor, 2 * PAGE_LIMIT);
    }
  }

  /** Whatever neither handles an event nor writes the row only changes the phase. */
  lemma NearPhase(s: State, a: Action)
    requires Inv(s) && Near(s) && Enabled(s, a)
    requires !a.Grow? && !a.Load? && !a.Poll? && !a.Handle? && !a.EndPage? && !a.Deliver? && !a.SaveStream?
    ensures Near(Step(s, a))
  {
    hide Within;
    var t := Step(s, a);
    WithinFrom(s.log, s.handled, Stored(s), Slack(s.phase), Stored(s), Slack(s.phase) + PAGE_LIMIT);
    if t.phase.Down? {
      WithinFrom(s.log, s.handled, Stored(s), Slack(s.phase), Stored(s), PAGE_LIMIT);
    } else if t.phase.Polling? {
      WithinFrom(s.log, s.handled, s.phase.cursor, 0, s.phase.cursor, 2 * PAGE_LIMIT);
      WithinFrom(s.log, s.handled, Stored(s), 0, Stored(s), PAGE_LIMIT);
    }
  }

  lemma NearStep(s: State, a: Action)
    requires Inv(s) && Near(s) && Enabled(s, a) && !IsLost(a) && (IsBlind(a) ==> Shallow(s))
    ensures Near(Step(s, a))
  {
    hide Near, Inv;
    match a
    case Grow(more) => NearGrow(s, more);
    case Load(_, _, _) => NearLoad(s, a);
    case Poll => NearPoll(s);
    case Handle => NearPageHandle(s);
    case EndPage(_) => NearEndPage(s);
    case Deliver => NearDeliver(s);
    case SaveStream(_) => NearSaveStream(s);
    case _ => NearPhase(s, a);
  }

  /** Every blind load of the run happens while no handled event lies past entry 1000 of the log. */
  ghost predicate BlindLoadsShallow(s: State, acts: seq<Action>) {
    acts == [] ||
    (var before, a := Run(s, acts[..|acts| - 1]), acts[|acts| - 1];
     && BlindLoadsShallow(s, acts[..|acts| - 1])
     && (IsBlind(a) ==> before.Some? && Increasing(before.value.log) && Shallow(before.value)))
  }

  lemma {:induction false} NearRun(s: State, acts: seq<Action>)
    requires Inv(s) && Near(s) && Run(s, acts).Some? && NoLostSave(acts) && BlindLoadsShallow(s, acts)
    ensures Near(Run(s, acts).value) && Inv(Run(s, acts).value)
  {
    if acts != [] {
      hide Near, Inv, Step, Enabled;
      var before, a := acts[..|acts| - 1], acts[|acts| - 1];
      NearRun(s, before);
      InvStep(Run(s, before).value, a);
      NearStep(Run(s, before).value, a);
    }
  }

  /**
    Replay bound: if no save is lost and every blind load is shallow, then wherever a crash falls, everything handled
    lies at or below the stored cursor or among the 500 events after it; on the stream at most one event is beyond it,
    and between a drain and the next event none.
   */
  lemma ReplayBound(s: State, acts: seq<Action>)
    requires Init(s) && Run(s, acts).Some? && NoLostSave(acts) && BlindLoadsShallow(s, acts)
    ensures
      var t := Run(s, acts).value;
      && Increasing(t.log)
      && Within(t.log, t.handled, Stored(t), 500)
      && (t.phase.Streaming? || t.phase.Drained? ==> Within(t.log, t.handled, Stored(t), 0))
      && (t.phase.Saving? ==> Within(t.log, t.handled, Stored(t), 1))
  {
    NearRun(s, acts);
    var t := Run(s, acts).value;
    WithinFrom(t.log, t.handled, Stored(t), Slack(t.phase), Stored(t), PAGE_LIMIT);
  }

  // --- what a deep blind load does ---

  predicate NoBlindLoad(acts: seq<Action>) {
    forall i :: 0 <= i < |acts| ==> !IsBlind(acts[i])
  }

  /** The bound holds in every continuation without lost saves and blind loads. */
  ghost predicate StaysBounded(s: State) {
    forall acts :: Run(s, acts).Some? && NoLostSave(acts) && NoBlindLoad(acts) ==>
      Increasing(Run(s, acts).value.log) &&
      Within(Run(s, acts).value.log, Run(s, acts).value.handled, Stored(Run(s, acts).value), 500)
  }

  function Handles(n: nat): seq<Action> {
    if n == 0 then [] else Handles(n - 1) + [Handle]
  }

  /** One page of drain, from the poll to the save. */
  function PageActs(size: nat): seq<Action> {
    [Poll] + Handles(size) + [EndPage(true)]
  }

  lemma {:induction false} HandlesOnly(n: nat)
    ensures forall i :: 0 <= i < |Handles(n)| ==> Handles(n)[i] == Handle
    ensures NoLostSave(PageActs(n)) && NoBlindLoad(PageActs(n))
  {
    if 0 < n { HandlesOnly(n - 1); }
  }

  /** The page in progress, `n` events on. */
  ghost function Handled(s: State, n: nat): State
    requires Increasing(s.log) && s.phase.Paging? && n <= s.phase.left
    requires Seen(s.log, s.phase.cursor) + s.phase.left <= |s.log|
  {
    var r := Seen(s.log, s.phase.cursor);
    var cursor := if n == 0 then s.phase.cursor else s.log[r + n - 1].version;
    s.(handled := s.handled + s.log[r..r + n], phase := s.phase.(cursor := cursor, left := s.phase.left - n))
  }

  lemma HandleNext(s: State, n: nat)
    requires Increasing(s.log) && s.phase.Paging? && n < s.phase.left
    requires Seen(s.log, s.phase.cursor) + s.phase.left <= |s.log|
    requires Seen(s.log, Handled(s, n).phase.cursor) == Seen(s.log, s.phase.cursor) + n
    ensures Enabled(Handled(s, n), Handle) && Step(Handled(s, n), Handle) == Handled(s, n + 1)
    ensures Seen(s.log, Handled(s, n + 1).phase.cursor) == Seen(s.log, s.phase.cursor) + n + 1
  {
    var r := Seen(s.log, s.phase.cursor);
    SeenAt(s.log, r + n);
    assert s.log[r..r + n] + [s.log[r + n]] == s.log[r..r + n + 1];
    assert s.handled + s.log[r..r + n] + [s.log[r + n]] == s.handled + s.log[r..r + n + 1];
  }

  lemma HandledNone(s: State)
    requires Increasing(s.log) && s.phase.Paging? && Seen(s.log, s.phase.cursor) + s.phase.left <= |s.log|
    ensures Handled(s, 0) == s
  {
    assert s.handled + s.log[Seen(s.log, s.phase.cursor)..Seen(s.log, s.phase.cursor)] == s.handled;
  }

  lemma {:induction false} HandlesRun(s: State, n: nat)
    requires Increasing(s.log) && s.phase.Paging? && n <= s.phase.left
    requires Seen(s.log, s.phase.cursor) + s.phase.left <= |s.log|
    ensures Run(s, Handles(n)) == Some(Handled(s, n))
    ensures Seen(s.log, Handled(s, n).phase.cursor) == Seen(s.log, s.phase.cursor) + n
  {
    if n == 0 {
      HandledNone(s);
    } else {
      hide Step, Enabled, Handled;
      HandlesRun(s, n - 1);
      HandleNext(s, n - 1);
      StepRuns(s, Handles(n - 1), Handle, Handled(s, n - 1), Handled(s, n));
    }
  }

  /** The cursor after the next page, when there is one. */
  ghost function PastPage(s: State, size: nat): State
    requires Increasing(s.log) && s.phase.Polling? && 0 < size && Seen(s.log, s.phase.cursor) + size <= |s.log|
  {
    var r := Seen(s.log, s.phase.cursor);
    var cursor := s.log[r + size - 1].version;
    s.(handled := s.handled + s.log[r..r + size], row := Some(ToInt64(cursor)),
       phase := if size < PAGE_LIMIT then Drained(cursor, s.phase.legacy) else Polling(cursor, s.phase.legacy))
  }

  /** Reading one page: its events are handled and the cursor is stored behind them. */
  lemma PageRun(s: State, size: nat)
    requires Increasing(s.log) && s.phase.Polling? && size == |Page(s.log, s.phase.cursor)| && 0 < size
    ensures Seen(s.log, s.phase.cursor) + size <= |s.log|
    ensures Run(s, PageActs(size)) == Some(PastPage(s, size))
    ensures
      var t := PastPage(s, size);
      Seen(s.log, t.phase.cursor) == Seen(s.log, s.phase.cursor) + size && Stored(t) == t.phase.cursor
  {
    var t := PageOpens(s, size);
    HandlesRun(t, size);
    PageCloses(s, t, size);
    var u := Handled(t, size);
    hide Step, Enabled, Handled, PastPage;
    RunConcat(s, [Poll], Handles(size));
    StepRuns(s, [Poll] + Handles(size), EndPage(true), u, PastPage(s, size));
  }

  lemma PageOpens(s: State, size: nat) returns (t: State)
    requires Increasing(s.log) && s.phase.Polling? && size == |Page(s.log, s.phase.cursor)|
    ensures Seen(s.log, s.phase.cursor) + size <= |s.log|
    ensures t == s.(phase := Paging(s.phase.cursor, size, size, s.phase.legacy)) && Run(s, [Poll]) == Some(t)
  {
    t := s.(phase := Paging(s.phase.cursor, size, size, s.phase.legacy));
    assert [] + [Poll] == [Poll];
    StepRuns(s, [], Poll, s, t);
  }

  lemma PageCloses(s: State, t: State, size: nat)
    requires Increasing(s.log) && s.phase.Polling? && 0 < size && Seen(s.log, s.phase.cursor) + size <= |s.log|
    requires t == s.(phase := Paging(s.phase.cursor, size, size, s.phase.legacy))
    ensures
      var u := Handled(t, size);
      Enabled(u, EndPage(true)) && Step(u, EndPage(true)) == PastPage(s, size)
  {
  }

  /** From 0, one full page moves the stored cursor back to entry 500. */
  lemma RestartRun(s: State)
    requires Increasing(s.log) && s.phase == Polling(0, false) && PAGE_LIMIT <= |s.log|
    ensures Run(s, PageActs(PAGE_LIMIT)).Some?
    ensures
      var t := Run(s, PageActs(PAGE_LIMIT)).value;
      && t.log == s.log && s.handled <= t.handled && Seen(t.log, Stored(t)) == PAGE_LIMIT
  {
    hide Run, PageActs, Stored;
    SeenIs(s.log, 0, 0);
    PageRun(s, PAGE_LIMIT);
  }

  /**
    A blind load keeps the bound in every continuation if and only if, when it happens, no handled event lies past
    entry 1000 of the log.
   */
  lemma BlindLoadIff(s: State, load: Action)
    requires Inv(s) && Near(s) && IsBlind(load) && load.saved && Enabled(s, load)
    ensures StaysBounded(Loaded(s, load)) <==> Shallow(s)
  {
    var t := Loaded(s, load);
    InvStep(s, load);
    if Shallow(s) {
      NearLoad(s, load);
      forall acts | Run(t, acts).Some? && NoLostSave(acts) && NoBlindLoad(acts)
        ensures Increasing(Run(t, acts).value.log)
        ensures Within(Run(t, acts).value.log, Run(t, acts).value.handled, Stored(Run(t, acts).value), PAGE_LIMIT)
      {
        NoBlindIsShallow(t, acts);
        NearRun(t, acts);
        var u := Run(t, acts).value;
        WithinFrom(u.log, u.handled, Stored(u), Slack(u.phase), Stored(u), PAGE_LIMIT);
      }
    } else {
      DeepRestart(t);
    }
  }

  lemma DeepRestart(s: State)
    requires Inv(s) && s.phase == Polling(0, false) && !Shallow(s)
    ensures !StaysBounded(s)
  {
    var i :| 0 <= i < |s.handled| && 2 * PAGE_LIMIT < Seen(s.log, s.handled[i].version);
    RestartRun(s);
    HandlesOnly(PAGE_LIMIT);
    var acts := PageActs(PAGE_LIMIT);
    var u := Run(s, acts).value;
    assert u.handled[i] == s.handled[i];
    assert !Within(u.log, u.handled, Stored(u), PAGE_LIMIT);
  }

  lemma {:induction false} NoBlindIsShallow(s: State, acts: seq<Action>)
    requires NoBlindLoad(acts)
    ensures BlindLoadsShallow(s, acts)
  {
    if acts != [] { NoBlindIsShallow(s, acts[..|acts| - 1]); }
  }

  lemma NoLostSaveConcat(a: seq<Action>, b: seq<Action>)
    requires NoLostSave(a) && NoLostSave(b)
    ensures NoLostSave(a + b)
  {
  }

  /** A start, the log of 1001 events drained in three pages, and a restart that can read nothing. */
  function DeepStart(): seq<Action> {
    [Load(true, true, true)] + PageActs(PAGE_LIMIT) + PageActs(PAGE_LIMIT) + PageActs(1)
    + [Crash, Load(false, false, true)]
  }

  /**
    The failing case happens: after 1001 events have been handled and stored, a blind load and one page leave the
    stored cursor at entry 500, so a crash then replays more than 500 events.
   */
  lemma BlindLoadBreaksTheBound(s: State)
    requires Init(s) && s.row == Some(0) && |s.log| == 1001
    ensures
      var acts := DeepStart() + PageActs(PAGE_LIMIT);
      && NoLostSave(acts) && Run(s, acts).Some?
      && (var t := Run(s, acts).value;
          && t.log == s.log && s.log[1000] in t.handled && Seen(t.log, Stored(t)) == 500
          && !Within(t.log, t.handled, Stored(t), 500))
  {
    var t := DeepStartRuns(s);
    RestartRun(t);
    RunConcat(s, DeepStart(), PageActs(PAGE_LIMIT));
    HandlesOnly(PAGE_LIMIT);
    NoLostSaveConcat(DeepStart(), PageActs(PAGE_LIMIT));
    var u := Run(t, PageActs(PAGE_LIMIT)).value;
    SeenAt(s.log, 2 * PAGE_LIMIT);
    var i := 2 * PAGE_LIMIT;
    assert u.handled[i] == t.handled[i] == s.log[i];
    assert Seen(u.log, u.handled[i].version) > Seen(u.log, Stored(u)) + PAGE_LIMIT;
  }

  /** A run that has handled the first `r` events of the log and goes on behind them. */
  ghost predicate ReadUpTo(s: State, acts: seq<Action>, r: nat) {
    && NoLostSave(acts) && Run(s, acts).Some?
    && (var t := Run(s, acts).value;
        && t.log == s.log && Increasing(t.log) && r <= |t.log| && t.handled == t.log[..r]
        && !t.phase.Down? && Seen(t.log, t.phase.cursor) == r
        && (t.phase.Polling? || r == |t.log|))
  }

  lemma ReadNext(s: State, acts: seq<Action>, r: nat, size: nat)
    requires ReadUpTo(s, acts, r) && 0 < size && r < |s.log|
    requires size == if |s.log| - r < PAGE_LIMIT then |s.log| - r else PAGE_LIMIT
    ensures ReadUpTo(s, acts + PageActs(size), r + size)
  {
    hide Run, PageActs, NoLostSave;
    var t := Run(s, acts).value;
    PageRun(t, size);
    RunConcat(s, acts, PageActs(size));
    HandlesOnly(size);
    NoLostSaveConcat(acts, PageActs(size));
    assert t.log[..r] + t.log[r..r + size] == t.log[..r + size];
  }

  lemma DeepStartRuns(s: State) returns (t: State)
    requires Init(s) && s.row == Some(0) && |s.log| == 1001
    ensures NoLostSave(DeepStart()) && Run(s, DeepStart()) == Some(t)
    ensures t.log == s.log && t.handled == s.log && t.phase == Polling(0, false)
  {
    hide Step, Enabled, PageActs, Run;
    var first := [Load(true, true, true)];
    SeenIs(s.log, 0, 0);
    FirstTurn(s);
    assert ReadUpTo(s, first, 0);
    ReadNext(s, first, 0, PAGE_LIMIT);
    var acts := first + PageActs(PAGE_LIMIT);
    ReadNext(s, acts, PAGE_LIMIT, PAGE_LIMIT);
    acts := acts + PageActs(PAGE_LIMIT);
    ReadNext(s, acts, 2 * PAGE_LIMIT, 1);
    acts := acts + PageActs(1);
    t := Run(s, acts).value;
    assert s.log[..2 * PAGE_LIMIT + 1] == s.log;
    Restart(s, acts, t);
    NoLostSaveConcat(acts, [Crash, Load(false, false, true)]);
    assert acts + [Crash, Load(false, false, true)] == DeepStart();
    t := Run(s, DeepStart()).value;
  }

  lemma FirstTurn(s: State)
    requires Init(s)
    ensures Run(s, [Load(true, true, true)]) == Some(Loaded(s, Load(true, true, true)))
  {
    StepRuns(s, [], Load(true, true, true), s, Loaded(s, Load(true, true, true)));
    assert [] + [Load(true, true, true)] == [Load(true, true, true)];
  }

  lemma Restart(s: State, acts: seq<Action>, t: State)
    requires Run(s, acts) == Some(t) && Increasing(t.log)
    ensures
      var u := t.(phase := Down);
      Run(s, acts + [Crash, Load(false, false, true)]) == Some(Loaded(u, Load(false, false, true)))
    ensures Loaded(t.(phase := Down), Load(false, false, true)).phase == Polling(0, false)
  {
    var u := t.(phase := Down);
    StepRuns(s, acts, Crash, t, u);
    StepRuns(s, acts + [Crash], Load(false, false, true), u, Loaded(u, Load(false, false, true)));
    assert acts + [Crash] + [Load(false, false, true)] == acts + [Crash, Load(false, false, true)];
  }
}
