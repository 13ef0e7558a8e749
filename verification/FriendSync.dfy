/**
  nex/friends-3ds/sync_friend.go over the core's friend graph: a console hands over its friend list and the adapter
  makes the graph agree with it, call by call. Every call to the resolver and to the core can fail, before or after
  it took effect.
 */
module FriendSync {
  import opened Basics
  import opened CoreGraph

  /** The PIDs and accounts of the 3DS namespace, a bijection between some of them. */
  datatype Links = Links(accounts: map<u32, Account>, pids: map<Account, u32>) {
    ghost predicate Valid() {
      && (forall q :: q in accounts ==> accounts[q] in pids && pids[accounts[q]] == q)
      && (forall a :: a in pids ==> pids[a] in accounts && accounts[pids[a]] == a)
    }
  }

  datatype Reply<+T> = Found(value: T) | NotFound | Failed

  /** What a request does to a relation: a pending one from the other side becomes a friendship. */
  function Requested(r: Relation): Relation {
    match r
    case Strangers => Outgoing
    case Incoming => Friends
    case _ => r
  }

  function Changed(r: Relation, dropped: bool, asked: bool): Relation {
    if dropped then Strangers else if asked then Requested(r) else r
  }

  /** From `g` to `h`, `me` ended things with `dropped`, requested `asked`, and nothing else happened. */
  ghost predicate Moved(g: Graph, h: Graph, me: Account, dropped: set<Account>, asked: set<Account>) {
    && Mirrored(h)
    && (forall b :: b != me ==> Rel(h, me, b) == Changed(Rel(g, me, b), b in dropped, b in asked))
    && (forall x, y :: x != me && y != me ==> Rel(h, x, y) == Rel(g, x, y))
  }

  lemma NotMoved(g: Graph, me: Account)
    requires Mirrored(g)
    ensures Moved(g, g, me, {}, {})
  {
  }

  /** One more relation of `me` changes. */
  lemma MovedOn(g: Graph, h: Graph, k: Graph, me: Account, b: Account, r: Relation,
                dropped: set<Account>, asked: set<Account>, dropped': set<Account>, asked': set<Account>)
    requires Moved(g, h, me, dropped, asked) && b != me
    requires k == Put(h, me, b, r)
    requires dropped' - {b} == dropped - {b} && asked' - {b} == asked - {b}
    requires r == Changed(Rel(g, me, b), b in dropped', b in asked')
    ensures Moved(g, k, me, dropped', asked')
  {
    PutRel(h, me, b, r);
    forall c | c != me ensures Rel(k, me, c) == Changed(Rel(g, me, c), c in dropped', c in asked') {
      if c != b {
        assert c in dropped' <==> c in dropped' - {b};
        assert c in dropped <==> c in dropped - {b};
        assert c in asked' <==> c in asked' - {b};
        assert c in asked <==> c in asked - {b};
        assert Rel(k, me, c) == Rel(h, me, c);
      }
    }
    forall x, y | x != me && y != me ensures Rel(k, x, y) == Rel(g, x, y) {
      assert Rel(k, x, y) == Rel(h, x, y);
    }
  }

  lemma MovedDrop(g: Graph, h: Graph, me: Account, b: Account, dropped: set<Account>, asked: set<Account>)
    requires Moved(g, h, me, dropped, asked) && b != me
    ensures Rel(h, me, b) != Strangers ==> Moved(g, RemoveFriend(h, me, b).0, me, dropped + {b}, asked)
    ensures Rel(h, me, b) == Strangers ==> RemoveFriend(h, me, b).0 == h
  {
    if Rel(h, me, b) != Strangers {
      MovedOn(g, h, Put(h, me, b, Strangers), me, b, Strangers, dropped, asked, dropped + {b}, asked);
    }
  }

  /** The two calls a request can make of the core, one after the other. */
  function Ask(g: Graph, from: Account, to: Account): (Graph, RequestReply) {
    var (h, reply) := RequestFriend(g, from, to);
    if reply == FailedPrecondition then (AcceptFriend(h, from, to).0, reply) else (h, reply)
  }

  lemma AskIs(g: Graph, me: Account, b: Account)
    requires Mirrored(g) && b != me
    ensures Ask(g, me, b).0 == g || Ask(g, me, b).0 == Put(g, me, b, Requested(Rel(g, me, b)))
    ensures Ask(g, me, b).0 == g ==> Requested(Rel(g, me, b)) == Rel(g, me, b)
    ensures Rel(g, me, b) == Incoming ==> RequestFriend(g, me, b) == (g, FailedPrecondition)
    ensures Rel(g, me, b) != Incoming ==> Ask(g, me, b) == RequestFriend(g, me, b)
  {
  }

  lemma MovedAsk(g: Graph, h: Graph, me: Account, b: Account, dropped: set<Account>, asked: set<Account>)
    requires Moved(g, h, me, dropped, asked) && b != me && b !in dropped
    ensures Moved(g, Ask(h, me, b).0, me, dropped, asked + {b})
  {
    AskIs(h, me, b);
    if Ask(h, me, b).0 != h {
      MovedOn(g, h, Ask(h, me, b).0, me, b, Requested(Rel(h, me, b)), dropped, asked, dropped, asked + {b});
    }
  }

  /** The calls of a request left to itself, and what it answers: complete exactly if the two are friends now. */
  lemma TurnsAreAsk(g: Graph, from: Account, to: Account)
    requires Mirrored(g) && from != to
    ensures
      var (g1, c1) := Turn(g, Ready, from, to);
      var (g2, c2) := Turn(g1, c1, from, to);
      && g2 == Ask(g, from, to).0
      && c2 == Done(if Rel(g2, from, to) == Friends then Complete else Incomplete)
  {
    PutRel(g, from, to, Requested(Rel(g, from, to)));
  }

  /** Both PIDs belong to somebody. */
  predicate Both(links: Links, p: u32, q: u32) {
    p in links.accounts && q in links.accounts
  }

  /** PID `p` stands in relation `kind` to PID `q`. */
  ghost predicate Stands(links: Links, g: Graph, q: u32, p: int, kind: Relation) {
    && q in links.accounts && p in links.accounts
    && Rel(g, links.accounts[q], links.accounts[p]) == kind
  }

  function AskByPid(links: Links, g: Graph, p: u32, q: u32): Graph {
    if Both(links, p, q) then Ask(g, links.accounts[p], links.accounts[q]).0 else g
  }

  function AcceptByPid(links: Links, g: Graph, p: u32, q: u32): (Graph, bool) {
    if Both(links, p, q) then AcceptFriend(g, links.accounts[p], links.accounts[q]) else (g, false)
  }

  function RemoveByPid(links: Links, g: Graph, p: u32, q: u32): (Graph, bool) {
    if Both(links, p, q) then RemoveFriend(g, links.accounts[p], links.accounts[q]) else (g, false)
  }

  /**
    The resolver and the core as this adapter sees them. `clean` says that no call has failed since the last sync began,
    `unresolved` lists the accounts whose PID could not be looked up, and `errors` counts the lists, removals and requests
    that ended in an error.
   */
  class Social {
    const links: Links
    var graph: Graph
    ghost var clean: bool
    ghost var asks: seq<u32>   // whom coregraph.Request was called for
    ghost var unresolved: seq<Account>
    ghost var errors: nat

    ghost predicate Valid()
      reads this
    {
      links.Valid() && Mirrored(graph)
    }

    constructor (links: Links, graph: Graph)
      requires links.Valid() && Mirrored(graph)
      ensures Valid() && this.links == links && this.graph == graph && clean && asks == []
    {
      this.links, this.graph, clean, asks, unresolved, errors := links, graph, true, [], [], 0;
    }

    method AccountOfPID(q: u32) returns (r: Reply<Account>)
      modifies this`clean
      ensures r.Found? ==> q in links.accounts && r.value == links.accounts[q]
      ensures r.NotFound? ==> q !in links.accounts
      ensures clean == (old(clean) && !r.Failed?)
    {
      var down := *;
      if down {
        clean := false;
        return Failed;
      }
      r := if q in links.accounts then Found(links.accounts[q]) else NotFound;
    }

    method PIDOfAccount(a: Account) returns (r: Reply<u32>)
      modifies this`clean, this`unresolved
      ensures unresolved == old(unresolved) + if r.Failed? then [a] else []
      ensures r.Found? ==> a in links.pids && r.value == links.pids[a]
      ensures r.NotFound? ==> a !in links.pids
      ensures clean == (old(clean) && !r.Failed?)
    {
      var down := *;
      if down {
        clean, unresolved := false, unresolved + [a];
        return Failed;
      }
      r := if a in links.pids then Found(links.pids[a]) else NotFound;
    }

    /** ListFriends and ListOutgoingRequests: the accounts that stand in relation `kind` to `a`. */
    method List(a: Account, kind: Relation) returns (ok: bool, accounts: seq<Account>)
      requires kind != Strangers
      modifies this`clean
      ensures clean == (old(clean) && ok)
      ensures ok ==> NoDup(accounts) && forall b :: b in accounts <==> Rel(graph, a, b) == kind
    {
      ok, accounts := *, [];
      if !ok {
        clean := false;
        return;
      }
      var rest := set p | p in graph.Keys && p.0 == a && graph[p] == kind :: p.1;
      while rest != {}
        invariant NoDup(accounts)
        invariant forall b :: b in rest ==> b !in accounts
        invariant forall b :: b in accounts || b in rest <==> Rel(graph, a, b) == kind
        decreases |rest|
      {
        var b :| b in rest;
        accounts, rest := accounts + [b], rest - {b};
      }
    }

    /** A failed call may have taken effect all the same. */
    method CoreRequest(from: Account, to: Account) returns (reply: Option<RequestReply>)
      modifies this`graph, this`clean
      ensures graph == old(graph) || graph == RequestFriend(old(graph), from, to).0
      ensures reply.Some? ==> (graph, reply.value) == RequestFriend(old(graph), from, to)
      ensures clean == (old(clean) && reply.Some?)
    {
      var before, down, landed := graph, *, *;
      if !down || landed { graph := RequestFriend(graph, from, to).0; }
      reply := if down then None else Some(RequestFriend(before, from, to).1);
      clean := clean && !down;
    }

    method CoreAccept(addressee: Account, requester: Account) returns (ok: bool)
      modifies this`graph, this`clean
      ensures graph == old(graph) || graph == AcceptFriend(old(graph), addressee, requester).0
      ensures ok ==> (graph, true) == AcceptFriend(old(graph), addressee, requester)
      ensures clean ==> old(clean) && ok == AcceptFriend(old(graph), addressee, requester).1
    {
      var before, down, landed := graph, *, *;
      if !down || landed { graph := AcceptFriend(graph, addressee, requester).0; }
      ok := !down && AcceptFriend(before, addressee, requester).1;
      clean := clean && !down;
    }

    method CoreRemove(a: Account, b: Account) returns (ok: bool)
      modifies this`graph, this`clean
      ensures graph == old(graph) || graph == RemoveFriend(old(graph), a, b).0
      ensures ok ==> (graph, true) == RemoveFriend(old(graph), a, b)
      ensures clean ==> old(clean) && ok == RemoveFriend(old(graph), a, b).1
    {
      var before, down, landed := graph, *, *;
      if !down || landed { graph := RemoveFriend(graph, a, b).0; }
      ok := !down && RemoveFriend(before, a, b).1;
      clean := clean && !down;
    }

    /** FriendPIDs and OutgoingAddresseePIDs: an account whose PID cannot be looked up is skipped without a word. */
    method PIDsRelated(q: u32, kind: Relation) returns (r: Reply<seq<u32>>)
      requires Valid() && kind != Strangers
      modifies this`clean, this`unresolved, this`errors
      ensures old(unresolved) <= unresolved && errors == old(errors) + if r.Failed? then 1 else 0
      ensures r.NotFound? ==> q !in links.accounts
      ensures clean ==> old(clean) && !r.Failed? && unresolved == old(unresolved)
      ensures r.Found? ==>
                && q in links.accounts && NoDup(r.value)
                && (forall p :: p in r.value ==> Stands(links, graph, q, p, kind))
                && (forall p :: Stands(links, graph, q, p, kind) ==>
                      p in r.value || links.accounts[p] in unresolved[|old(unresolved)|..])
    {
      var me := AccountOfPID(q);
      if !me.Found? {
        errors := errors + if me.NotFound? then 0 else 1;
        return if me.NotFound? then NotFound else Failed;
      }
      var ok, accounts := List(me.value, kind);
      if !ok {
        errors := errors + 1;
        return Failed;
      }
      var out: seq<u32> := [];
      ghost var skipped: seq<Account> := [];
      for i := 0 to |accounts|
        invariant unresolved == old(unresolved) + skipped && errors == old(errors)
        invariant clean ==> old(clean) && skipped == []
        invariant NoDup(out)
        invariant forall p :: p in out ==> p in links.accounts && links.accounts[p] in accounts[..i]
        invariant forall b :: b in accounts[..i] && b in links.pids ==>
          links.pids[b] in out || b in skipped
      {
        var p := PIDOfAccount(accounts[i]);
        if p.Found? { out := out + [p.value]; }
        if p.Failed? { skipped := skipped + [accounts[i]]; }
        assert accounts[..i + 1] == accounts[..i] + [accounts[i]];
      }
      assert unresolved[|old(unresolved)|..] == skipped;
      assert accounts[..|accounts|] == accounts;
      r := Found(out);
    }

    /** coregraph.Request. */
    method Request(fromPid: u32, toPid: u32) returns (r: Reply<RequestState>)
      requires Valid()
      modifies this`graph, this`clean, this`asks, this`errors
      ensures errors == old(errors) + if r.Failed? then 1 else 0
      ensures Valid() && asks == old(asks) + [toPid]
      ensures clean ==> old(clean)
      ensures !r.Found? ==> graph == old(graph) || graph == AskByPid(links, old(graph), fromPid, toPid)
      ensures r.NotFound? ==> !Both(links, fromPid, toPid) && graph == old(graph)
      ensures r.Failed? && clean ==> fromPid == toPid
      ensures r.Found? ==>
                && Both(links, fromPid, toPid) && fromPid != toPid
                && graph == AskByPid(links, old(graph), fromPid, toPid)
                && r.value == (if Rel(graph, links.accounts[fromPid], links.accounts[toPid]) == Friends
                               then Complete else Incomplete)
    {
      asks := asks + [toPid];
      var from := AccountOfPID(fromPid);
      if !from.Found? {
        errors := errors + if from.NotFound? then 0 else 1;
        return if from.NotFound? then NotFound else Failed;
      }
      var to := AccountOfPID(toPid);
      if !to.Found? {
        errors := errors + if to.NotFound? then 0 else 1;
        return if to.NotFound? then NotFound else Failed;
      }
      ghost var g := graph;
      if fromPid != toPid {
        AskIs(g, from.value, to.value);
        PutRel(g, from.value, to.value, Requested(Rel(g, from.value, to.value)));
      }
      var reply := CoreRequest(from.value, to.value);
      match reply
      case None => errors := errors + 1; return Failed;
      case Some(FailedPrecondition) =>
        var ok := AcceptRequest(fromPid, toPid);
        errors := errors + if ok then 0 else 1;
        return if ok then Found(Complete) else Failed;
      case Some(InvalidArgument) => errors := errors + 1; return Failed;
      case Some(Accepted) => return Found(Complete);
      case Some(Pending) => return Found(Incomplete);   // whatever GetRelationship then answers
    }

    /** coregraph.AcceptRequest. */
    method AcceptRequest(addresseePid: u32, requesterPid: u32) returns (ok: bool)
      requires Valid()
      modifies this`graph, this`clean
      ensures graph == old(graph) || graph == AcceptByPid(links, old(graph), addresseePid, requesterPid).0
      ensures ok ==> (graph, true) == AcceptByPid(links, old(graph), addresseePid, requesterPid)
      ensures clean ==> old(clean) && ok == AcceptByPid(links, old(graph), addresseePid, requesterPid).1
    {
      var addressee := AccountOfPID(addresseePid);
      if !addressee.Found? { return false; }
      var requester := AccountOfPID(requesterPid);
      if !requester.Found? { return false; }
      ok := CoreAccept(addressee.value, requester.value);
    }

    /** coregraph.Remove. */
    method Remove(pidA: u32, pidB: u32) returns (ok: bool)
      requires Valid()
      modifies this`graph, this`clean, this`errors
      ensures errors == old(errors) + if ok then 0 else 1
      ensures graph == old(graph) || graph == RemoveByPid(links, old(graph), pidA, pidB).0
      ensures ok ==> (graph, true) == RemoveByPid(links, old(graph), pidA, pidB)
      ensures clean ==> old(clean) && ok == RemoveByPid(links, old(graph), pidA, pidB).1
    {
      var a := AccountOfPID(pidA);
      errors := errors + 1;
      if !a.Found? { return false; }
      var b := AccountOfPID(pidB);
      if !b.Found? { return false; }
      ok := CoreRemove(a.value, b.value);
      if ok { errors := errors - 1; }
    }
  }

  // --- database/3ds and the sync itself ---

  datatype Relationship = Relationship(pid: u64, kind: RequestState)

  datatype Error = Nothing | EmptyList | Other

  function Pids(list: seq<Relationship>): (s: seq<u64>)
    ensures |s| == |list| && forall i :: 0 <= i < |s| ==> s[i] == list[i].pid
  {
    if list == [] then [] else Pids(list[..|list| - 1]) + [list[|list| - 1].pid]
  }

  /** The PIDs the console is shown as friends of `me`, half-open ones included. */
  ghost predicate Related(links: Links, g: Graph, me: u32, p: int) {
    Stands(links, g, me, p, Friends) || Stands(links, g, me, p, Outgoing)
  }

  /** What the console is told about PID `p`: how the two stand once `me` has asked. */
  ghost predicate Tells(links: Links, g: Graph, me: u32, r: Relationship) {
    r.kind == if me !in links.accounts || r.pid !in links.accounts then Invalid
              else if Requested(Rel(g, links.accounts[me], links.accounts[r.pid])) == Friends then Complete
              else Incomplete
  }

  ghost predicate AllTell(links: Links, g: Graph, me: u32, list: seq<Relationship>) {
    forall i :: 0 <= i < |list| ==> Tells(links, g, me, list[i])
  }

  function Half(kind: Relation): RequestState {
    if kind == Friends then Complete else Incomplete
  }

  lemma PidsSnoc(list: seq<Relationship>, r: Relationship)
    ensures Pids(list + [r]) == Pids(list) + [r.pid]
  {
  }

  function AsList(pids: seq<u32>, kind: Relation): (list: seq<Relationship>)
    ensures |list| == |pids| && forall i :: 0 <= i < |list| ==> list[i] == Relationship(pids[i], Half(kind))
  {
    if pids == [] then [] else AsList(pids[..|pids| - 1], kind) + [Relationship(pids[|pids| - 1], Half(kind))]
  }

  lemma HalfTells(links: Links, g: Graph, me: u32, pids: seq<u32>, kind: Relation)
    requires (kind == Friends || kind == Outgoing) && forall p :: p in pids ==> Stands(links, g, me, p, kind)
    ensures AllTell(links, g, me, AsList(pids, kind))
  {
    forall i | 0 <= i < |pids| ensures Tells(links, g, me, AsList(pids, kind)[i]) {
      assert Stands(links, g, me, pids[i], kind);
    }
  }

  lemma ListTells(links: Links, g: Graph, me: u32, friends: seq<u32>, outgoing: seq<u32>)
    requires NoDup(friends) && forall p :: p in friends ==> Stands(links, g, me, p, Friends)
    requires NoDup(outgoing) && forall p :: p in outgoing ==> Stands(links, g, me, p, Outgoing)
    ensures
      var list := AsList(friends, Friends) + AsList(outgoing, Outgoing);
      AllTell(links, g, me, list) && Pids(list) == friends + outgoing && NoDup(Pids(list))
  {
    hide AllTell, Pids, AsList, NoDup, Stands;
    HalfTells(links, g, me, friends, Friends);
    HalfTells(links, g, me, outgoing, Outgoing);
    AllTellTogether(links, g, me, AsList(friends, Friends), AsList(outgoing, Outgoing));
    PidsOfHalves(friends, outgoing);
    DifferentStands(links, g, me, friends, outgoing);
    NoDupTogether(friends, outgoing);
  }

  lemma AllTellTogether(links: Links, g: Graph, me: u32, a: seq<Relationship>, b: seq<Relationship>)
    requires AllTell(links, g, me, a) && AllTell(links, g, me, b)
    ensures AllTell(links, g, me, a + b)
  {
    hide Tells;
  }

  lemma PidsOfHalves(friends: seq<u32>, outgoing: seq<u32>)
    ensures Pids(AsList(friends, Friends) + AsList(outgoing, Outgoing)) == friends + outgoing
  {
  }

  lemma NoDupTogether(a: seq<u32>, b: seq<u32>)
    requires NoDup(a) && NoDup(b) && forall p :: p in a ==> p !in b
    ensures NoDup<u64>(a + b)
  {
    forall i, j | 0 <= i < j < |a| + |b| ensures (a + b)[i] != (a + b)[j] {
      if i < |a| <= j { assert a[i] in a && b[j - |a|] in b; }
    }
  }

  lemma DifferentStands(links: Links, g: Graph, me: u32, friends: seq<u32>, outgoing: seq<u32>)
    requires forall p :: p in friends ==> Stands(links, g, me, p, Friends)
    requires forall p :: p in outgoing ==> Stands(links, g, me, p, Outgoing)
    ensures forall p :: p in friends ==> p !in outgoing
  {
  }

  /** Either of GetUserFriends' loops. */
  method Append(list: seq<Relationship>, pids: seq<u32>, kind: Relation) returns (longer: seq<Relationship>)
    ensures longer == list + AsList(pids, kind)
  {
    longer := list;
    for i := 0 to |pids|
      invariant longer == list + AsList(pids[..i], kind)
    {
      longer := longer + [Relationship(pids[i], Half(kind))];
      assert pids[..i + 1] == pids[..i] + [pids[i]];
    }
    assert pids[..|pids|] == pids;
  }

  ghost predicate AllRelated(links: Links, g: Graph, me: u32, seen: seq<u64>) {
    forall p :: p in seen ==> Related(links, g, me, p)
  }

  /** Everybody the console is shown is in `seen`, unless their PID could not be looked up. */
  ghost predicate AllSeen(links: Links, g: Graph, me: u32, seen: seq<u64>, unresolved: seq<Account>) {
    forall p :: Related(links, g, me, p) ==> p in seen || links.accounts[p] in unresolved
  }

  method GetUserFriends(core: Social, me: u32) returns (err: Error, list: seq<Relationship>)
    requires core.Valid()
    modifies core`clean, core`unresolved, core`errors
    ensures core.errors == old(core.errors) + if err == Other then 1 else 0
    ensures core.clean ==> old(core.clean) && err != Other && core.unresolved == old(core.unresolved)
    ensures old(core.unresolved) <= core.unresolved
    ensures err == EmptyList ==> list == []
    ensures err == Nothing ==>
              && me in core.links.accounts && list != [] && NoDup(Pids(list))
              && AllTell(core.links, core.graph, me, list) && AllRelated(core.links, core.graph, me, Pids(list))
    ensures err != Other ==>
              AllSeen(core.links, core.graph, me, Pids(list), core.unresolved[|old(core.unresolved)|..])
  {
    hide NoDup, AllTell, Rel, Pids, AsList;
    list := [];
    var friends := core.PIDsRelated(me, Friends);
    if friends.Failed? { return Other, list; }
    if friends.Found? {
      list := Append(list, friends.value, Friends);
      assert list == AsList(friends.value, Friends);
    }
    var outgoing := core.PIDsRelated(me, Outgoing);
    if outgoing.Failed? { return Other, list; }
    if outgoing.Found? { list := Append(list, outgoing.value, Outgoing); }
    err := if list == [] then EmptyList else Nothing;
    if friends.Found? { ListTells(core.links, core.graph, me, friends.value, outgoing.value); }
    PidsOfNone();
  }

  lemma PidsOfNone()
    ensures Pids([]) == []
  {
  }

  /** database_3ds.SaveFriendship; a PID that belongs to nobody is reported, not an error. */
  method SaveFriendship(core: Social, sender: u32, recipient: u32) returns (ok: bool, r: Relationship)
    requires core.Valid()
    modifies core`graph, core`clean, core`asks, core`errors
    ensures core.errors == old(core.errors) + if ok then 0 else 1
    ensures core.Valid() && core.asks == old(core.asks) + [recipient]
    ensures core.clean ==> old(core.clean) && (ok || sender == recipient)
    ensures ok ==> r.pid == recipient && Tells(core.links, old(core.graph), sender, r)
    ensures ok ==> core.graph == AskByPid(core.links, old(core.graph), sender, recipient)
    ensures sender == recipient ==> core.graph == old(core.graph) && (ok ==> sender !in core.links.accounts)
    ensures core.graph == old(core.graph) || core.graph == AskByPid(core.links, old(core.graph), sender, recipient)
  {
    ghost var g := core.graph;
    var state := core.Request(sender, recipient);
    match state
    case Failed => return false, Relationship(recipient, Invalid);
    case NotFound => return true, Relationship(recipient, Invalid);
    case Found(s) =>
      AskTells(core.links, g, sender, recipient);
      return true, Relationship(recipient, s);
  }

  lemma AskTells(links: Links, g: Graph, p: u32, q: u32)
    requires links.Valid() && Mirrored(g) && Both(links, p, q) && p != q
    ensures Rel(AskByPid(links, g, p, q), links.accounts[p], links.accounts[q])
         == Requested(Rel(g, links.accounts[p], links.accounts[q]))
  {
    AskIs(g, links.accounts[p], links.accounts[q]);
  }

  /** The truncation of a listed PID. */
  function Low(p: u64): u32 {
    p % TWO_32
  }

  /** The truncations of the listed PIDs. */
  ghost function Lows(pids: seq<u64>): set<u32> {
    set p | p in pids :: Low(p)
  }

  method IsPIDInRelationships(list: seq<Relationship>, pid: u32) returns (found: bool)
    ensures found <==> pid in Lows(Pids(list))
  {
    for i := 0 to |list|
      invariant forall j :: 0 <= j < i ==> Low(list[j].pid) != pid
    {
      if Low(list[i].pid) == pid {
        assert Pids(list)[i] == list[i].pid;
        return true;
      }
    }
    return false;
  }

  lemma LowsSnoc(pids: seq<u64>, j: nat)
    requires j < |pids|
    ensures Lows(pids[..j + 1]) == Lows(pids[..j]) + {Low(pids[j])}
  {
    assert pids[..j + 1] == pids[..j] + [pids[j]];
  }

  /** The accounts behind those of `seen` that the console did not list. */
  ghost function Unlisted(links: Links, seen: seq<u64>, pids: seq<u64>): set<Account> {
    set b | b in links.pids && links.pids[b] in seen && links.pids[b] !in pids
  }

  /** The accounts behind `asks`. */
  ghost function Owners(links: Links, asks: seq<u32>): set<Account> {
    set b | b in links.pids && links.pids[b] in asks
  }

  /** Removing the next unlisted friend. */
  lemma DropNext(links: Links, g: Graph, h: Graph, me: u32, seen: seq<u64>, pids: seq<u64>, i: nat)
    requires links.Valid() && Mirrored(g) && me in links.accounts && i < |seen|
    requires NoDup(seen) && AllRelated(links, g, me, seen)
    requires Moved(g, h, links.accounts[me], Unlisted(links, seen[..i], pids), {})
    ensures seen[i] in pids ==> Unlisted(links, seen[..i + 1], pids) == Unlisted(links, seen[..i], pids)
    ensures seen[i] !in pids ==>
              var (k, ok) := RemoveByPid(links, h, me, Low(seen[i]));
              ok && Moved(g, k, links.accounts[me], Unlisted(links, seen[..i + 1], pids), {})
  {
    assert seen[i] in seen;
    assert seen[..i + 1] == seen[..i] + [seen[i]];
    var b := links.accounts[seen[i]];
    if seen[i] !in pids {
      assert Unlisted(links, seen[..i + 1], pids) == Unlisted(links, seen[..i], pids) + {b};
      assert b !in Unlisted(links, seen[..i], pids);
      MovedDrop(g, h, links.accounts[me], b, Unlisted(links, seen[..i], pids), {});
    }
  }

  /** The first loop of SyncFriend. */
  method DropUnlisted(core: Social, me: u32, current: seq<Relationship>, pids: seq<u64>)
    returns (ok: bool, ghost dropped: set<Account>)
    requires core.Valid() && me in core.links.accounts
    requires NoDup(Pids(current)) && AllRelated(core.links, core.graph, me, Pids(current))
    modifies core`graph, core`clean, core`errors
    ensures core.Valid() && core.errors == old(core.errors) + if ok then 0 else 1
    ensures core.clean ==> old(core.clean) && ok
    ensures dropped <= Unlisted(core.links, Pids(current), pids)
    ensures ok ==> dropped == Unlisted(core.links, Pids(current), pids)
    ensures Moved(old(core.graph), core.graph, core.links.accounts[me], dropped, {})
  {
    hide NoDup, AllRelated;
    ghost var g, links, seen := core.graph, core.links, Pids(current);
    ghost var a := links.accounts[me];
    dropped := {};
    NotMoved(g, a);
    assert Unlisted(links, seen[..0], pids) == {};
    for i := 0 to |current|
      invariant core.Valid() && core.errors == old(core.errors) && (core.clean ==> old(core.clean))
      invariant dropped == Unlisted(links, seen[..i], pids) && Moved(g, core.graph, a, dropped, {})
    {
      var hasPID := false;
      for j := 0 to |pids|
        invariant !hasPID && current[i].pid !in pids[..j]
      {
        if pids[j] == current[i].pid {
          hasPID := true;
          break;
        }
      }
      DropNext(links, g, core.graph, me, seen, pids, i);
      if !hasPID {
        ghost var h := core.graph;
        ok := core.Remove(me, Low(current[i].pid));
        if core.graph != h { dropped := Unlisted(links, seen[..i + 1], pids); }
        if !ok { return; }
      }
    }
    assert seen[..|current|] == seen;
    ok := true;
  }

  /** What the second loop has requested by the time it has gone through `listed`. */
  ghost predicate AskedFor(asks: seq<u32>, seen: seq<u64>, listed: seq<u64>) {
    && NoDup(asks)
    && (forall q :: q in asks ==> q in Lows(listed) && q !in seen)
  }

  /** Requesting the next listed PID. */
  lemma AskNext(links: Links, g: Graph, h: Graph, me: u32, dropped: set<Account>, seen: seq<u64>, asks: seq<u32>, q: u32)
    requires links.Valid() && Mirrored(g) && me in links.accounts && q !in seen
    requires forall b :: b in dropped ==> b in links.pids && links.pids[b] in seen
    requires Moved(g, h, links.accounts[me], dropped, Owners(links, asks))
    ensures Owners(links, asks) <= Owners(links, asks + [q])
    ensures q !in links.accounts ==>
              Owners(links, asks + [q]) == Owners(links, asks) && AskByPid(links, h, me, q) == h
    ensures q != me && q in links.accounts ==>
              && Owners(links, asks + [q]) == Owners(links, asks) + {links.accounts[q]}
              && Moved(g, AskByPid(links, h, me, q), links.accounts[me], dropped, Owners(links, asks + [q]))
  {
    if q in links.accounts {
      var b := links.accounts[q];
      assert forall c :: c in links.pids && links.pids[c] == q <==> c == b;
      assert Owners(links, asks + [q]) == Owners(links, asks) + {b};
      assert Owners(links, asks) <= Owners(links, asks + [q]);
      if q != me { MovedAsk(g, h, links.accounts[me], b, dropped, Owners(links, asks)); }
    } else {
      assert Owners(links, asks + [q]) == Owners(links, asks);
    }
  }

  /** A person's relation that has not been touched yet is what it was. */
  lemma Untouched(links: Links, g: Graph, h: Graph, me: u32, dropped: set<Account>, seen: seq<u64>, asks: seq<u32>,
                  r: Relationship)
    requires links.Valid() && me in links.accounts && r.pid !in seen && r.pid !in asks && r.pid != me
    requires forall b :: b in dropped ==> b in links.pids && links.pids[b] in seen
    requires Moved(g, h, links.accounts[me], dropped, Owners(links, asks))
    ensures Tells(links, h, me, r) ==> Tells(links, g, me, r)
  {
  }

  lemma AskedForNone(links: Links, seen: seq<u64>)
    ensures AskedFor([], seen, []) && Owners(links, []) == {} && Lows([]) == {}
  {
  }

  lemma AskedForNext(asks: seq<u32>, seen: seq<u64>, pids: seq<u64>, j: nat, q: u32)
    requires j < |pids| && AskedFor(asks, seen, pids[..j]) && q == Low(pids[j])
    requires q !in seen && q !in asks
    ensures AskedFor(asks + [q], seen, pids[..j + 1]) && AskedFor(asks + [q], seen, pids)
  {
    LowsSnoc(pids, j);
  }

  /** A listed PID that is there already is passed over. */
  lemma AskedForSkip(asks: seq<u32>, seen: seq<u64>, pids: seq<u64>, j: nat, me: u32)
    requires j < |pids| && AskedFor(asks, seen, pids[..j]) && Low(pids[j]) in seen + asks
    requires me !in seen && me !in Lows(pids[..j])
    ensures AskedFor(asks, seen, pids[..j + 1]) && me !in Lows(pids[..j + 1])
  {
    LowsSnoc(pids, j);
  }

  lemma LowsOfNarrow(s: seq<u64>)
    requires forall p :: p in s ==> p < TWO_32
    ensures forall q :: q in Lows(s) <==> q in s
  {
    forall q | q in s ensures q in Lows(s) {
      assert Low(q) == q;
    }
  }

  /** The second loop of SyncFriend. */
  method AskListed(core: Social, me: u32, current: seq<Relationship>, pids: seq<u64>,
                   ghost g: Graph, ghost dropped: set<Account>)
    returns (ok: bool, reply: seq<Relationship>, ghost asks: seq<u32>, ghost asked: set<Account>)
    requires core.Valid() && Mirrored(g) && me in core.links.accounts && me !in Pids(current)
    requires forall b :: b in dropped ==> b in core.links.pids && core.links.pids[b] in Pids(current)
    requires forall p :: p in Pids(current) ==> p < TWO_32
    requires Moved(g, core.graph, core.links.accounts[me], dropped, {})
    requires AllTell(core.links, g, me, current)
    modifies core`graph, core`clean, core`asks, core`errors
    ensures core.errors == old(core.errors) + if ok then 0 else 1
    ensures core.Valid() && core.asks == old(core.asks) + asks && AskedFor(asks, Pids(current), pids)
    ensures core.clean ==> old(core.clean) && (ok || me in Lows(pids))
    ensures Moved(g, core.graph, core.links.accounts[me], dropped, asked) && asked <= Owners(core.links, asks)
    ensures ok ==> asked == Owners(core.links, asks) && me !in Lows(pids)
    ensures ok ==> Pids(reply) == Pids(current) + asks && AllTell(core.links, g, me, reply)
    ensures ok ==> forall q :: q in Lows(pids) ==> q in Pids(reply)
  {
    hide Moved, NoDup, Tells, Mirrored, Owners, Lows, AskedFor, Rel, AskByPid, Pids;
    ghost var links, seen := core.links, Pids(current);
    ghost var a := links.accounts[me];
    reply, asks, asked := current, [], {};
    AskedForNone(links, seen);
    assert pids[..0] == [];
    for j := 0 to |pids|
      invariant core.Valid() && core.errors == old(core.errors)
      invariant core.asks == old(core.asks) + asks && (core.clean ==> old(core.clean))
      invariant AskedFor(asks, seen, pids[..j]) && me !in Lows(pids[..j])
      invariant asked == Owners(links, asks) && Moved(g, core.graph, a, dropped, asked)
      invariant Pids(reply) == seen + asks && AllTell(links, g, me, reply)
      invariant forall q :: q in Lows(pids[..j]) ==> q in Pids(reply)
    {
      LowsSnoc(pids, j);
      LowsOfNarrow(Pids(reply));
      var q := Low(pids[j]);
      var found := IsPIDInRelationships(reply, q);
      if !found {
        ghost var h := core.graph;
        AskNext(links, g, h, me, dropped, seen, asks, q);
        AskedForNext(asks, seen, pids, j, q);
        var saved, r := SaveFriendship(core, me, q);
        if core.graph != h || saved { asked := Owners(links, asks + [q]); }
        asks := asks + [q];
        if !saved { return false, reply, asks, asked; }
        Untouched(links, g, h, me, dropped, seen, asks[..|asks| - 1], r);
        PidsSnoc(reply, r);
        reply := reply + [r];
      } else {
        AskedForSkip(asks, seen, pids, j, me);
      }
    }
    assert pids[..|pids|] == pids;
    ok := true;
  }

  /** What a sync may end: relations the console shows but did not list. */
  ghost predicate MayDrop(links: Links, g: Graph, me: u32, pids: seq<u64>, dropped: set<Account>) {
    forall b :: b in dropped ==> b in links.pids && Related(links, g, me, links.pids[b]) && links.pids[b] !in pids
  }

  /** What a sync may request: listed PIDs, truncated, that it did not just end. */
  ghost predicate MayAsk(links: Links, pids: seq<u64>, dropped: set<Account>, asked: set<Account>) {
    dropped !! asked && forall b :: b in asked ==> b in links.pids && links.pids[b] in Lows(pids)
  }

  /** How a relation to PID `q` comes out of a sync. */
  ghost function Synced(r: Relation, q: u32, pids: seq<u64>): Relation {
    if r == Friends || r == Outgoing then (if q in pids then r else Strangers)
    else if q in Lows(pids) then Requested(r)
    else r
  }

  /** `h` is `g` with every relation of `a` to a known PID synced, and nothing else changed. */
  ghost predicate SyncedAll(links: Links, g: Graph, h: Graph, a: Account, pids: seq<u64>) {
    && Mirrored(h)
    && (forall q :: q in links.accounts && links.accounts[q] != a ==>
          Rel(h, a, links.accounts[q]) == Synced(Rel(g, a, links.accounts[q]), q, pids))
    && (forall b :: b != a && b !in links.pids ==> Rel(h, a, b) == Rel(g, a, b))
    && (forall x, y :: x != a && y != a ==> Rel(h, x, y) == Rel(g, x, y))
  }

  lemma SyncedIs(links: Links, g: Graph, h: Graph, me: u32, seen: seq<u64>, asks: seq<u32>, pids: seq<u64>)
    requires links.Valid() && Mirrored(g) && me in links.accounts
    requires forall p :: p in seen <==> Related(links, g, me, p)
    requires AskedFor(asks, seen, pids) && forall q :: q in Lows(pids) ==> q in seen || q in asks
    requires Moved(g, h, links.accounts[me], Unlisted(links, seen, pids), Owners(links, asks))
    ensures SyncedAll(links, g, h, links.accounts[me], pids)
  {
    var a := links.accounts[me];
    forall q | q in links.accounts && links.accounts[q] != a
      ensures Rel(h, a, links.accounts[q]) == Synced(Rel(g, a, links.accounts[q]), q, pids)
    {
      assert q in seen <==> Related(links, g, me, q);
    }
  }

  /** What may have been ended and requested, seen from the start of the sync. */
  lemma MayBe(links: Links, g: Graph, me: u32, seen: seq<u64>, asks: seq<u32>, pids: seq<u64>,
              dropped: set<Account>, asked: set<Account>)
    requires AllRelated(links, g, me, seen) && AskedFor(asks, seen, pids)
    requires dropped <= Unlisted(links, seen, pids) && asked <= Owners(links, asks)
    ensures MayDrop(links, g, me, pids, dropped) && MayAsk(links, pids, dropped, asked)
  {
  }

  /**
    SyncFriend. Whatever fails, it ends only unlisted relations of the user and requests only listed PIDs, each at
    most once. It succeeds exactly if the list of friends could be read and was not empty and no removal and no request
    ended in an error, and then everybody in the list whom the user did not list has been removed, everybody they listed
    who was not in it has been requested, and the answer is the list and the requested. If nothing fails it succeeds
    exactly for a user who has a relation and does not list themselves, and then every relation to a known PID is synced.
    `seen` is the list as it was read.
   */
  method SyncFriend(core: Social, me: u32, pids: seq<u64>)
    returns (ok: bool, reply: seq<Relationship>,
             ghost seen: seq<u64>, ghost asks: seq<u32>, ghost dropped: set<Account>, ghost asked: set<Account>)
    requires core.Valid()
    modifies core
    ensures core.Valid() && core.asks == old(core.asks) + asks
    ensures NoDup(asks) && forall q :: q in asks ==> q in Lows(pids) && q !in seen
    ensures NoDup(seen) && AllRelated(core.links, old(core.graph), me, seen)
    ensures old(core.unresolved) <= core.unresolved && old(core.errors) <= core.errors
    ensures core.errors > old(core.errors) ||
      AllSeen(core.links, old(core.graph), me, seen, core.unresolved[|old(core.unresolved)|..])
    ensures ok <==> core.errors == old(core.errors) && seen != []
    ensures ok ==> dropped == Unlisted(core.links, seen, pids) && asked == Owners(core.links, asks)
    ensures ok ==> Pids(reply) == seen + asks && forall q :: q in Lows(pids) ==> q in Pids(reply)
    ensures me !in core.links.accounts ==> !ok && core.graph == old(core.graph)
    ensures me in core.links.accounts ==>
              && Moved(old(core.graph), core.graph, core.links.accounts[me], dropped, asked)
              && MayDrop(core.links, old(core.graph), me, pids, dropped) && MayAsk(core.links, pids, dropped, asked)
    ensures core.clean ==>
              (ok <==> (exists p :: Related(core.links, old(core.graph), me, p)) && me !in Lows(pids))
    ensures core.clean && ok ==> SyncedAll(core.links, old(core.graph), core.graph, core.links.accounts[me], pids)
    ensures ok ==> AllTell(core.links, old(core.graph), me, reply)
    ensures core.clean && ok ==>
              forall p :: p in Pids(reply) <==> Related(core.links, old(core.graph), me, p) || p in Lows(pids)
  {
    hide Moved, NoDup, Tells, Mirrored, Owners, Unlisted, Lows, Pids, AllSeen, AllRelated, Related;
    ghost var g, links := core.graph, core.links;
    core.clean := true;
    ok, reply, seen, asks, dropped, asked := false, [], [], [], {}, {};
    Nobody(links, g, me, pids);
    var err, current := GetUserFriends(core, me);
    if err != Nothing {
      PidsOfNone();
      NobodySeen(links, g, me);
      if core.clean { assert core.unresolved[|old(core.unresolved)|..] == []; }
      return;
    }
    seen := Pids(current);
    SomebodyRelated(links, g, me, current);
    UnlistedSeen(links, seen, pids);
    ok, dropped := DropUnlisted(core, me, current, pids);
    MayBe(links, g, me, seen, [], pids, dropped, {});
    if !ok { return; }
    ok, reply, asks, asked := AskListed(core, me, current, pids, g, dropped);
    MayBe(links, g, me, seen, asks, pids, dropped, asked);
    if core.clean {
      assert core.unresolved[|old(core.unresolved)|..] == [];
      ExactlySeen(links, g, me, seen);
    }
    if ok && core.clean { SyncedIs(links, g, core.graph, me, seen, asks, pids); }
  }

  lemma NobodySeen(links: Links, g: Graph, me: u32)
    ensures NoDup<u64>([]) && AllRelated(links, g, me, [])
    ensures AllSeen(links, g, me, [], []) ==> !exists p :: Related(links, g, me, p)
  {
  }

  lemma ExactlySeen(links: Links, g: Graph, me: u32, seen: seq<u64>)
    requires AllRelated(links, g, me, seen) && AllSeen(links, g, me, seen, [])
    ensures forall p :: p in seen <==> Related(links, g, me, p)
  {
  }

  lemma Nobody(links: Links, g: Graph, me: u32, pids: seq<u64>)
    requires Mirrored(g)
    ensures me in links.accounts ==> Moved(g, g, links.accounts[me], {}, {})
    ensures MayDrop(links, g, me, pids, {}) && MayAsk(links, pids, {}, {}) && NoDup<u32>([])
    ensures forall seen :: AskedFor([], seen, pids)
    ensures Owners(links, []) == {}
    ensures !Related(links, g, me, me)
  {
    if me in links.accounts { NotMoved(g, links.accounts[me]); }
  }

  lemma UnlistedSeen(links: Links, seen: seq<u64>, pids: seq<u64>)
    ensures forall b :: b in Unlisted(links, seen, pids) ==> b in links.pids && links.pids[b] in seen
  {
  }

  lemma SomebodyRelated(links: Links, g: Graph, me: u32, current: seq<Relationship>)
    requires current != [] && AllRelated(links, g, me, Pids(current)) && !Related(links, g, me, me)
    ensures exists p :: Related(links, g, me, p)
    ensures me !in Pids(current) && forall p :: p in Pids(current) ==> p < TWO_32
  {
    assert Pids(current)[0] in Pids(current);
    assert Related(links, g, me, Pids(current)[0]);
  }

  // --- what the sync is for ---

  lemma LowOfListed(q: u32, pids: seq<u64>)
    requires q in pids
    ensures q in Lows(pids)
  {
    assert Low(q) == q;
  }

  /**
    After a sync the user's friends and half-open friends are exactly the listed people if and only if no current
    one of them is listed by nothing but a PID of more than 32 bits, which a list of four-byte PIDs never does.
   */
  lemma SyncMeetsListIff(links: Links, g: Graph, h: Graph, me: u32, pids: seq<u64>)
    requires links.Valid() && me in links.accounts && me !in Lows(pids) && Mirrored(g)
    requires SyncedAll(links, g, h, links.accounts[me], pids)
    ensures (forall q: u32 :: Related(links, h, me, q) <==> q in links.accounts && q in Lows(pids))
       <==> (forall q: u32 :: Related(links, g, me, q) && q in Lows(pids) ==> q in pids)
  {
    var a := links.accounts[me];
    forall q: u32 ensures (Related(links, h, me, q) <==> q in links.accounts && q in Lows(pids))
                     <==> (Related(links, g, me, q) && q in Lows(pids) ==> q in pids)
    {
      if q in pids { LowOfListed(q, pids); }
      if q in links.accounts && links.accounts[q] != a {
        assert Rel(h, a, links.accounts[q]) == Synced(Rel(g, a, links.accounts[q]), q, pids);
      } else {
        assert !Related(links, h, me, q) && !Related(links, g, me, q);
      }
    }
  }

  ghost predicate Narrow(pids: seq<u64>) {
    forall p :: p in pids ==> p < TWO_32
  }

  /** So a console that lists proper PIDs gets what it listed, and syncing the same list again changes nothing. */
  lemma SyncOfNarrowList(links: Links, g: Graph, h: Graph, me: u32, pids: seq<u64>)
    requires links.Valid() && me in links.accounts && Narrow(pids) && me !in pids && Mirrored(g)
    requires SyncedAll(links, g, h, links.accounts[me], pids)
    ensures forall q: u32 :: Related(links, h, me, q) <==> q in links.accounts && q in pids
    ensures SyncedAll(links, h, h, links.accounts[me], pids)
  {
    LowsOfNarrow(pids);
    SyncMeetsListIff(links, g, h, me, pids);
  }

  /** Two people whose lists name each other are friends once both have synced, whatever they were before. */
  lemma BothSync(links: Links, g: Graph, h: Graph, k: Graph, me: u32, other: u32, mine: seq<u64>, theirs: seq<u64>)
    requires links.Valid() && Both(links, me, other) && me != other && Mirrored(g)
    requires other in mine && me in theirs
    requires SyncedAll(links, g, h, links.accounts[me], mine)
    requires SyncedAll(links, h, k, links.accounts[other], theirs)
    ensures Rel(k, links.accounts[me], links.accounts[other]) == Friends
  {
    var a, b := links.accounts[me], links.accounts[other];
    LowOfListed(other, mine);
    LowOfListed(me, theirs);
    assert Rel(h, a, b) == Synced(Rel(g, a, b), other, mine);
    assert Rel(h, b, a) == Flip(Rel(h, a, b));
    assert Rel(k, b, a) == Synced(Rel(h, b, a), me, theirs);
    assert Rel(k, a, b) == Flip(Rel(k, b, a));
  }

  /**
    The function's own two widths can disagree: given a friend listed by a PID that only truncates to theirs, it removes
    them and never requests them again. A server that reads PIDs as four bytes does not give it such a list.
   */
  lemma WidePidLosesAFriend(g: Graph, h: Graph)
    requires g == Put(map[], "me", "friend", Friends)
    requires SyncedAll(Links(map[1 := "me", 2 := "friend"], map["me" := 1, "friend" := 2]), g, h, "me", [TWO_32 + 2])
    ensures Low(TWO_32 + 2) == 2 && Rel(g, "me", "friend") == Friends && Rel(h, "me", "friend") == Strangers
  {
    var links := Links(map[1 := "me", 2 := "friend"], map["me" := 1, "friend" := 2]);
    assert 2 in links.accounts && links.accounts[2] == "friend" && "friend" != "me";
    assert [TWO_32 + 2][0] == TWO_32 + 2;
    assert Rel(h, "me", "friend") == Synced(Friends, 2, [TWO_32 + 2]);
  }
}
