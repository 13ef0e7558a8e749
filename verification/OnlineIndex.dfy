/**
  globals/connected_accounts.go: which PIDs an account is connected with, kept in two maps. A mark lands when its
  lookup of the account returns, which can be long after the console left.
 */
module OnlineIndex {
  import opened Basics

  type Account = string

  datatype Change = On(pid: u32, account: Account) | Off(pid: u32)

  // --- what the index is about, told by the changes alone ---

  /** The account `p` is connected as: that of its last change, unless that was a departure. */
  ghost function AccountOf(h: seq<Change>, p: u32): Option<Account> {
    if h == [] then None
    else
      var c := h[|h| - 1];
      if c.pid != p then AccountOf(h[..|h| - 1], p) else if c.On? then Some(c.account) else None
  }

  /** The PID that was last connected as `a`, if it has not left as `a` since. */
  ghost function Newest(h: seq<Change>, a: Account): Option<u32> {
    if h == [] then None
    else
      var c, before := h[|h| - 1], Newest(h[..|h| - 1], a);
      if c.On? then (if c.account == a then Some(c.pid) else before)
      else if before == Some(c.pid) && AccountOf(h[..|h| - 1], c.pid) == Some(a) then None else before
  }

  /** The account `p` was last marked with, whether or not it has left since. */
  ghost function LastMark(h: seq<Change>, p: u32): Option<Account> {
    if h == [] then None
    else
      var c := h[|h| - 1];
      if c.pid == p && c.On? then Some(c.account) else LastMark(h[..|h| - 1], p)
  }

  /** No PID ever changes its account. */
  ghost predicate Steady(h: seq<Change>) {
    forall i, j :: 0 <= i < j < |h| && h[i].On? && h[j].On? && h[i].pid == h[j].pid ==> h[i].account == h[j].account
  }

  lemma {:induction false} AccountMarked(h: seq<Change>, p: u32)
    ensures AccountOf(h, p).Some? ==> On(p, AccountOf(h, p).value) in h
  {
    if h != [] { AccountMarked(h[..|h| - 1], p); }
  }

  lemma SteadyMark(h: seq<Change>)
    requires Steady(h) && h != [] && h[|h| - 1].On?
    ensures
      var before := AccountOf(h[..|h| - 1], h[|h| - 1].pid);
      before.Some? ==> before.value == h[|h| - 1].account
  {
    var p := h[|h| - 1].pid;
    AccountMarked(h[..|h| - 1], p);
    if AccountOf(h[..|h| - 1], p).Some? {
      var i :| 0 <= i < |h| - 1 && h[i] == On(p, AccountOf(h[..|h| - 1], p).value);
    }
  }

  lemma {:induction false} NewestIsConnected(h: seq<Change>, a: Account)
    requires Steady(h)
    ensures Newest(h, a).Some? ==> AccountOf(h, Newest(h, a).value) == Some(a)
  {
    if h != [] {
      var c, before := h[|h| - 1], h[..|h| - 1];
      NewestIsConnected(before, a);
      if c.On? { SteadyMark(h); }
    }
  }

  /**
    Over any history: the PID the index has for an account is connected as that account if and only if it was last
    marked with it, so that only a PID that has moved to another account can be answered wrongly.
   */
  lemma {:induction false} NewestIff(h: seq<Change>, a: Account, p: u32)
    requires Newest(h, a) == Some(p)
    ensures AccountOf(h, p) == Some(a) <==> LastMark(h, p) == Some(a)
  {
    if h != [] {
      var c, before := h[|h| - 1], h[..|h| - 1];
      if Newest(before, a) == Some(p) { NewestIff(before, a, p); }
    }
  }

  /** Change `i` is the last mark of `a`. */
  ghost predicate IsLastMark(h: seq<Change>, a: Account, i: nat) {
    && i < |h| && h[i].On? && h[i].account == a
    && forall j :: i < j < |h| ==> !(h[j].On? && h[j].account == a)
  }

  /** The console marked by change `i` has left since, at a moment when it was connected as `a`. */
  ghost predicate Left(h: seq<Change>, a: Account, i: nat)
    requires i < |h|
  {
    exists j :: i < j < |h| && LeftAt(h, a, h[i].pid, j)
  }

  ghost predicate LeftAt(h: seq<Change>, a: Account, p: u32, j: nat)
    requires j < |h|
  {
    h[j] == Off(p) && AccountOf(h[..j], p) == Some(a)
  }

  lemma LeftNext(h: seq<Change>, a: Account, i: nat)
    requires i < |h| - 1
    ensures Left(h, a, i) <==> Left(h[..|h| - 1], a, i) || LeftAt(h, a, h[i].pid, |h| - 1)
  {
    var before := h[..|h| - 1];
    forall j: nat | j < |before| ensures LeftAt(before, a, h[i].pid, j) <==> LeftAt(h, a, h[i].pid, j) {
      assert before[..j] == h[..j];
    }
  }

  /** The PID of the last mark is the answer until it has left. */
  lemma {:induction false} LastMarkAnswers(h: seq<Change>, a: Account, i: nat)
    requires IsLastMark(h, a, i)
    ensures Newest(h, a) == if Left(h, a, i) then None else Some(h[i].pid)
  {
    if i < |h| - 1 {
      assert IsLastMark(h[..|h| - 1], a, i);
      LastMarkAnswers(h[..|h| - 1], a, i);
      LeftNext(h, a, i);
    }
  }

  lemma {:induction false} LastMarkExists(h: seq<Change>, a: Account) returns (i: nat)
    ensures if forall j :: 0 <= j < |h| ==> !(h[j].On? && h[j].account == a)
            then Newest(h, a) == None
            else IsLastMark(h, a, i)
  {
    i := 0;
    if h != [] {
      var c, before := h[|h| - 1], h[..|h| - 1];
      i := LastMarkExists(before, a);
      assert forall j :: 0 <= j < |before| ==> before[j] == h[j];
      if c.On? && c.account == a { i := |h| - 1; }
    }
  }

  /**
    When the index has no answer: if and only if the account was never marked or the console that marked it last has
    left as it. When it has one, it is that console.
   */
  lemma NewestNoneIff(h: seq<Change>, a: Account)
    ensures Newest(h, a).None? <==> forall i: nat :: IsLastMark(h, a, i) ==> Left(h, a, i)
    ensures Newest(h, a).Some? ==> forall i: nat :: IsLastMark(h, a, i) ==> h[i].pid == Newest(h, a).value
  {
    forall i: nat | IsLastMark(h, a, i)
      ensures Newest(h, a) == if Left(h, a, i) then None else Some(h[i].pid)
    {
      LastMarkAnswers(h, a, i);
    }
    var i := LastMarkExists(h, a);
  }

  /** An account that is online on some console is missed if and only if the console that marked it last has left as it. */
  lemma OnlineMissedIff(h: seq<Change>, a: Account, p: u32)
    requires AccountOf(h, p) == Some(a)
    ensures Newest(h, a).None? <==> exists i: nat :: IsLastMark(h, a, i) && Left(h, a, i)
  {
    AccountMarked(h, p);
    NewestNoneIff(h, a);
    var k :| 0 <= k < |h| && h[k] == On(p, a);
    var i := LastMarkExists(h, a);
    assert IsLastMark(h, a, i);
    LastMarkAnswers(h, a, i);
    if Newest(h, a).Some? {
      forall j: nat | IsLastMark(h, a, j) ensures !Left(h, a, j) {
        LastMarkAnswers(h, a, j);
      }
    }
  }

  /** A PID that moved is still the answer for the account it left. */
  lemma MovedPidIsStale(p: u32, a: Account, b: Account)
    requires a != b
    ensures Newest([On(p, a), On(p, b)], a) == Some(p) && AccountOf([On(p, a), On(p, b)], p) == Some(b)
    ensures Newest([On(p, a), On(p, b), Off(p)], a) == Some(p) && AccountOf([On(p, a), On(p, b), Off(p)], p) == None
  {
    var h := [On(p, a), On(p, b), Off(p)];
    assert h[..2] == [On(p, a), On(p, b)] && h[..2][..1] == [On(p, a)];
    assert Newest([On(p, a)], a) == Some(p);
    assert Newest(h[..2], a) == Some(p) && AccountOf(h[..2], p) == Some(b);
  }

  /** One console of two on the same account leaves, and the index loses the account although the other is still on. */
  lemma NewestForgetsTheOther(first: u32, second: u32, a: Account)
    requires first != second
    ensures
      var h := [On(first, a), On(second, a), Off(second)];
      Steady(h) && AccountOf(h, first) == Some(a) && Newest(h, a) == None
  {
    var h := [On(first, a), On(second, a), Off(second)];
    assert h[..2] == [On(first, a), On(second, a)];
    assert h[..2][..1] == [On(first, a)];
    assert AccountOf([On(first, a)], first) == Some(a);
    assert AccountOf(h[..2], first) == Some(a) && Newest(h[..2], a) == Some(second);
  }

  // --- the two maps ---

  /** Whoever `accounts` names is connected as that account. */
  ghost predicate Sound(accounts: map<Account, u32>, pids: map<u32, Account>) {
    forall a :: a in accounts ==> accounts[a] in pids && pids[accounts[a]] == a
  }

  /** A mark keeps the maps sound exactly when it does not move the PID away from an account that still names it. */
  lemma MarkKeepsSoundIff(accounts: map<Account, u32>, pids: map<u32, Account>, p: u32, a: Account)
    requires Sound(accounts, pids)
    ensures Sound(accounts[a := p], pids[p := a])
       <==> !(p in pids && pids[p] != a && pids[p] in accounts && accounts[pids[p]] == p)
  {
    if p in pids && pids[p] != a && pids[p] in accounts && accounts[pids[p]] == p {
      var b := pids[p];
      assert accounts[a := p][b] == p && pids[p := a][p] == a;
    }
  }

  class Index {
    var accounts: map<Account, u32>
    var pids: map<u32, Account>
    ghost var history: seq<Change>

    ghost predicate Valid()
      reads this
    {
      && (forall p: u32 :: AccountOf(history, p) == if p in pids then Some(pids[p]) else None)
      && (forall a :: Newest(history, a) == if a in accounts then Some(accounts[a]) else None)
    }

    constructor ()
      ensures Valid() && history == []
    {
      accounts, pids, history := map[], map[], [];
    }

    /** MarkAccountOnline, once the account has been looked up; None is a failed lookup. */
    method MarkAccountOnline(pid: u32, found: Option<Account>)
      requires Valid()
      modifies this
      ensures Valid()
      ensures history == old(history) + if found.Some? && found.value != "" then [On(pid, found.value)] else []
    {
      if found == None || found.value == "" { return; }
      accounts := accounts[found.value := pid];
      pids := pids[pid := found.value];
      history := history + [On(pid, found.value)];
      assert history[..|history| - 1] == old(history);
    }

    /** The PID is gone from both maps, but for an account it had moved away from before. */
    method MarkAccountOffline(pid: u32)
      requires Valid()
      modifies this
      ensures Valid() && history == old(history) + [Off(pid)]
      ensures pid !in pids
      ensures forall a :: a in accounts && accounts[a] == pid <==>
        a in old(accounts) && old(accounts)[a] == pid && AccountOf(old(history), pid) != Some(a)
      ensures Steady(history) ==> forall a :: a in accounts ==> accounts[a] != pid
    {
      if pid in pids {
        var account := pids[pid];
        pids := pids - {pid};
        if account in accounts && accounts[account] == pid { accounts := accounts - {account}; }
      }
      history := history + [Off(pid)];
      assert history[..|history| - 1] == old(history);
      SteadyBefore(history);
      if Steady(history) {
        forall a | a in old(accounts) && old(accounts)[a] == pid ensures pid in old(pids) && old(pids)[pid] == a {
          NewestIsConnected(old(history), a);
        }
      }
    }

    method OnlinePIDsOfAccount(account: Account) returns (out: seq<u32>)
      requires Valid()
      ensures NoDup(out)
      ensures forall p: u32 :: p in out <==> AccountOf(history, p) == Some(account)
    {
      out := [];
      var rest := pids.Keys;
      while rest != {}
        invariant rest <= pids.Keys
        invariant NoDup(out)
        invariant forall p :: p in out <==> p in pids && p !in rest && pids[p] == account
        decreases |rest|
      {
        var p :| p in rest;
        rest := rest - {p};
        if pids[p] == account { out := out + [p]; }
      }
    }

    method OnlinePIDOfAccount(account: Account) returns (found: Option<u32>)
      requires Valid()
      ensures found == Newest(history, account)
      ensures found.None? <==> forall i: nat :: IsLastMark(history, account, i) ==> Left(history, account, i)
      ensures found.Some? ==> forall i: nat :: IsLastMark(history, account, i) ==> history[i].pid == found.value
      ensures found.Some? ==>
        (AccountOf(history, found.value) == Some(account) <==> LastMark(history, found.value) == Some(account))
      ensures Steady(history) && found.Some? ==> AccountOf(history, found.value) == Some(account)
    {
      found := if account in accounts then Some(accounts[account]) else None;
      NewestNoneIff(history, account);
      if found.Some? { NewestIff(history, account, found.value); }
      if Steady(history) { NewestIsConnected(history, account); }
    }
  }

  lemma SteadyBefore(h: seq<Change>)
    requires h != []
    ensures Steady(h) ==> Steady(h[..|h| - 1])
  {
  }
}
