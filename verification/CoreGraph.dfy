/**
  The account core's friend graph, and coregraph.Request over it. The core's own code is not part of this model: its
  rules are the ones coregraph states and relies on.
 */
module CoreGraph {

  type Account = string

  /** How one account stands to another. */
  datatype Relation = Strangers | Friends | Outgoing | Incoming

  function Flip(r: Relation): Relation {
    match r
    case Outgoing => Incoming
    case Incoming => Outgoing
    case _ => r
  }

  /** Relations by ordered pair; a pair that is missing has none. */
  type Graph = map<(Account, Account), Relation>

  function Rel(g: Graph, a: Account, b: Account): Relation {
    if (a, b) in g then g[(a, b)] else Strangers
  }

  /** Both sides agree, and nobody is related to themselves. */
  ghost predicate Mirrored(g: Graph) {
    && (forall a, b :: Rel(g, b, a) == Flip(Rel(g, a, b)))
    && (forall a :: Rel(g, a, a) == Strangers)
  }

  function Put(g: Graph, a: Account, b: Account, r: Relation): Graph {
    g[(a, b) := r][(b, a) := Flip(r)]
  }

  /** Only the relation between `a` and `b` differs. */
  ghost predicate Same(g: Graph, h: Graph, a: Account, b: Account) {
    forall x, y :: (x, y) != (a, b) && (x, y) != (b, a) ==> Rel(h, x, y) == Rel(g, x, y)
  }

  lemma PutRel(g: Graph, a: Account, b: Account, r: Relation)
    requires Mirrored(g) && a != b
    ensures Mirrored(Put(g, a, b, r)) && Rel(Put(g, a, b, r), a, b) == r && Same(g, Put(g, a, b, r), a, b)
  {
    var h := Put(g, a, b, r);
    forall x, y ensures Rel(h, y, x) == Flip(Rel(h, x, y)) {
      assert Rel(g, y, x) == Flip(Rel(g, x, y));
    }
    forall x ensures Rel(h, x, x) == Strangers {
      assert Rel(g, x, x) == Strangers;
    }
  }

  datatype RequestReply = Accepted | Pending | FailedPrecondition | InvalidArgument

  /**
    RequestFriend: at once for friends, refused while the other's request is pending, otherwise pending. That a request
    to oneself is refused is an assumption about the core.
   */
  function RequestFriend(g: Graph, from: Account, to: Account): (Graph, RequestReply) {
    if from == to then (g, InvalidArgument)
    else match Rel(g, from, to)
      case Friends => (g, Accepted)
      case Incoming => (g, FailedPrecondition)
      case Outgoing => (g, Pending)
      case Strangers => (Put(g, from, to, Outgoing), Pending)
  }

  /** AcceptFriend: turns a request pending toward `addressee` into a friendship; there must be one. */
  function AcceptFriend(g: Graph, addressee: Account, requester: Account): (Graph, bool) {
    if Rel(g, addressee, requester) == Incoming then (Put(g, addressee, requester, Friends), true) else (g, false)
  }

  /** RemoveFriend: ends whatever there is between the two; there must be something. */
  function RemoveFriend(g: Graph, a: Account, b: Account): (Graph, bool) {
    if Rel(g, a, b) != Strangers then (Put(g, a, b, Strangers), true) else (g, false)
  }

  /** The state Request answers with, in terms of the 3DS. */
  datatype RequestState = Invalid | Incomplete | Complete

  // --- two people add each other at the same time ---

  /** Where one call of Request is: each turn of it is one call of the core. */
  datatype Call = Ready | Asked | Refused | Done(state: RequestState)

  datatype Pair = Pair(g: Graph, first: Call, second: Call)

  function Turn(g: Graph, call: Call, from: Account, to: Account): (Graph, Call) {
    match call
    case Ready =>
      var (h, reply) := RequestFriend(g, from, to);
      (match reply
       case Accepted => (h, Done(Complete))
       case Pending => (h, Asked)
       case FailedPrecondition => (h, Refused)
       case InvalidArgument => (h, Done(Invalid)))
    case Asked => (g, Done(Incomplete))        // GetRelationship: every answer to it ends the same
    case Refused =>
      var (h, ok) := AcceptFriend(g, from, to);
      (h, Done(if ok then Complete else Invalid))
    case Done(_) => (g, call)
  }

  function PairTurn(p: Pair, a: Account, b: Account, firstMoves: bool): Pair {
    if firstMoves then
      var (g, c) := Turn(p.g, p.first, a, b);
      Pair(g, c, p.second)
    else
      var (g, c) := Turn(p.g, p.second, b, a);
      Pair(g, p.first, c)
  }

  /** Both calls, interleaved as `schedule` says. */
  function Interleaved(p: Pair, a: Account, b: Account, schedule: seq<bool>): Pair {
    if schedule == [] then p
    else PairTurn(Interleaved(p, a, b, schedule[..|schedule| - 1]), a, b, schedule[|schedule| - 1])
  }

  /** What holds between the two at every point: whoever asked first waits or is done, the other completes. */
  ghost predicate PairInv(p: Pair, a: Account, b: Account) {
    && Mirrored(p.g)
    && match Rel(p.g, a, b)
       case Strangers => p.first == Ready && p.second == Ready
       case Outgoing => p.first in {Asked, Done(Incomplete)} && p.second in {Ready, Refused}
       case Incoming => p.second in {Asked, Done(Incomplete)} && p.first in {Ready, Refused}
       case Friends =>
         || (p.first in {Asked, Done(Incomplete)} && p.second == Done(Complete))
         || (p.second in {Asked, Done(Incomplete)} && p.first == Done(Complete))
  }

  function Left(c: Call): nat {
    match c
    case Ready => 2
    case Done(_) => 0
    case _ => 1
  }

  /** How often `who` has a turn. */
  function Turns(schedule: seq<bool>, who: bool): nat {
    if schedule == [] then 0
    else Turns(schedule[..|schedule| - 1], who) + if schedule[|schedule| - 1] == who then 1 else 0
  }

  lemma PairTurnInv(p: Pair, a: Account, b: Account, firstMoves: bool)
    requires a != b && PairInv(p, a, b)
    ensures PairInv(PairTurn(p, a, b, firstMoves), a, b) && Same(p.g, PairTurn(p, a, b, firstMoves).g, a, b)
  {
    assert Rel(p.g, b, a) == Flip(Rel(p.g, a, b));
    if firstMoves {
      PutRel(p.g, a, b, Outgoing);
      PutRel(p.g, a, b, Friends);
    } else {
      PutRel(p.g, b, a, Outgoing);
      PutRel(p.g, b, a, Friends);
    }
  }

  function Max0(n: int): nat {
    if n < 0 then 0 else n
  }

  lemma {:induction false} InterleavedInv(g: Graph, a: Account, b: Account, schedule: seq<bool>)
    requires a != b && Mirrored(g) && Rel(g, a, b) == Strangers
    ensures
      var p := Interleaved(Pair(g, Ready, Ready), a, b, schedule);
      && PairInv(p, a, b) && Same(g, p.g, a, b)
      && Left(p.first) == Max0(2 - Turns(schedule, true))
      && Left(p.second) == Max0(2 - Turns(schedule, false))
  {
    if schedule != [] {
      var before := schedule[..|schedule| - 1];
      InterleavedInv(g, a, b, before);
      PairTurnInv(Interleaved(Pair(g, Ready, Ready), a, b, before), a, b, schedule[|schedule| - 1]);
    }
  }

  /**
    Two people who add each other end up friends, however the core calls of their two requests interleave: one
    request completes the friendship, the other answers incomplete, and no other relation moves.
   */
  lemma MutualAdd(g: Graph, a: Account, b: Account, schedule: seq<bool>)
    requires a != b && Mirrored(g) && Rel(g, a, b) == Strangers
    requires Turns(schedule, true) >= 2 && Turns(schedule, false) >= 2
    ensures
      var p := Interleaved(Pair(g, Ready, Ready), a, b, schedule);
      && Rel(p.g, a, b) == Friends && Rel(p.g, b, a) == Friends
      && {p.first, p.second} == {Done(Complete), Done(Incomplete)}
      && Same(g, p.g, a, b)
  {
    InterleavedInv(g, a, b, schedule);
  }
}
