/** The request distributor: requests wait in creation order, and the oldest one that some peer with room can
    serve goes first. */
module Distributors {
  import opened Transactions

  type Peer = nat

  type Request = nat

  /** The registered peers and what they say when asked: whether there is room in their queue, whether they
      are suitable for a request, and how long to wait before sending it, zero for not at all. */
  datatype Env = Env(peers: set<Peer>, canQueue: Peer -> bool, canSend: (Request, Peer) -> bool, wait: (Request,
      Peer) -> nat)

  datatype Choice = Choice(peer: Peer, req: Request, wait: nat)

  predicate Serves(env: Env, r: Request, p: Peer) {
    p in env.peers && env.canQueue(p) && env.canSend(r, p)
  }

  /** No registered peer with room can serve the request. */
  ghost predicate Hopeless(env: Env, r: Request) {
    forall p: Peer :: !Serves(env, r, p)
  }

  /** The request at an index is the first of the queue that the peer can serve. */
  ghost predicate First(env: Env, q: seq<Request>, i: nat, p: Peer) {
    i < |q| && Serves(env, q[i], p) && forall j | 0 <= j < i :: !Serves(env, q[j], p)
  }

  ghost predicate Oldest(env: Env, q: seq<Request>, r: Request, p: Peer) {
    exists i: nat :: First(env, q, i, p) && q[i] == r
  }

  // ---------- one pass over the queue ----------

  /** Peers that have been asked for their oldest request after `n` requests. */
  ghost predicate Asked(env: Env, q: seq<Request>, n: nat, checked: set<Peer>)
    requires n <= |q|
  {
    forall p: Peer :: p in checked <==> exists j | 0 <= j < n :: Serves(env, q[j], p)
  }

  /** The ready choices and the one with the least wait, among the peers' oldest requests so far. */
  ghost predicate Collected(env: Env, q: seq<Request>, n: nat, ready: set<(Peer, Request)>, best: Option<Choice>)
    requires n <= |q|
  {
    && (forall x | x in ready :: Oldest(env, q, x.1, x.0) && env.wait(x.1, x.0) == 0)
    && (best.Some? ==>
          Oldest(env, q, best.value.req, best.value.peer)
          && env.wait(best.value.req, best.value.peer) == best.value.wait > 0)
    && (forall i: nat, p: Peer | i < n && First(env, q, i, p) ::
          if env.wait(q[i], p) == 0 then (p, q[i]) in ready else best.Some? && best.value.wait <= env.wait(q[i], p))
  }

  /** What asking the unchecked peers about a request adds. */
  ghost predicate Added(env: Env, r: Request, checked: set<Peer>, ready: set<(Peer, Request)>, best: Option<Choice>,
                        checked': set<Peer>, ready': set<(Peer, Request)>, best': Option<Choice>, asked: set<Peer>) {
    && (forall p: Peer :: p in checked' <==> p in checked || (p in asked && Serves(env, r, p)))
    && (forall x :: x in ready' <==>
          x in ready || (x.1 == r && x.0 in asked && x.0 !in checked && Serves(env, r, x.0) && env.wait(r, x.0) == 0))
    && (best.Some? ==> best'.Some? && best'.value.wait <= best.value.wait)
    && (best' == best || (best'.Some? && best'.value.req == r && best'.value.peer in asked
        && best'.value.peer !in checked
                          && Serves(env, r, best'.value.peer) && best'.value.wait == env.wait(r, best'.value.peer) > 0))
    && (forall p: Peer | p in asked && p !in checked && Serves(env, r, p) && env.wait(r, p) > 0 ::
          best'.Some? && best'.value.wait <= env.wait(r, p))
  }

  /** Asks every unchecked peer about a request, in any order. */
  method Ask(env: Env, r: Request, checked: set<Peer>, ready: set<(Peer, Request)>, best: Option<Choice>)
    returns (canSend: bool, checked': set<Peer>, ready': set<(Peer, Request)>, best': Option<Choice>)
    ensures canSend <==> exists p: Peer :: p !in checked && Serves(env, r, p)
    ensures Added(env, r, checked, ready, best, checked', ready', best', env.peers)
  {
    canSend, checked', ready', best' := false, checked, ready, best;
    var rest := env.peers;
    while rest != {}
      invariant rest <= env.peers
      invariant canSend <==> exists p: Peer :: p in env.peers - rest && p !in checked && Serves(env, r, p)
      invariant Added(env, r, checked, ready, best, checked', ready', best', env.peers - rest)
      decreases |rest|
    {
      var p :| p in rest;
      if p !in checked' && env.canQueue(p) && env.canSend(r, p) {
        assert Serves(env, r, p);
        canSend := true;
        var wait := env.wait(r, p);
        if wait == 0 {
          ready' := ready' + {(p, r)};
        } else if best' == None || wait < best'.value.wait {
          best' := Some(Choice(p, r, wait));
        }
        checked' := checked' + {p};
      }
      rest := rest - {p};
    }
  }

  /** One more request has been asked about. */
  lemma AskedOne(env: Env, q: seq<Request>, n: nat, checked: set<Peer>, ready: set<(Peer, Request)>,
                 best: Option<Choice>,
                 checked': set<Peer>, ready': set<(Peer, Request)>, best': Option<Choice>)
    requires n < |q| && Asked(env, q, n, checked) && Collected(env, q, n, ready, best)
    requires Added(env, q[n], checked, ready, best, checked', ready', best', env.peers)
    ensures Asked(env, q, n + 1, checked') && Collected(env, q, n + 1, ready', best')
  {
    forall p: Peer | p !in checked && Serves(env, q[n], p) ensures First(env, q, n, p) {
    }
    forall p: Peer ensures p in checked' <==> exists j | 0 <= j < n + 1 :: Serves(env, q[j], p) {
      if exists j | 0 <= j < n + 1 :: Serves(env, q[j], p) {
        var j :| 0 <= j < n + 1 && Serves(env, q[j], p);
        assert j < n ==> p in checked;
      }
    }
    forall i: nat, p: Peer | i < n + 1 && First(env, q, i, p)
      ensures if env.wait(q[i], p) == 0 then (p, q[i]) in ready'
              else best'.Some? && best'.value.wait <= env.wait(q[i], p)
    {
      if i == n {
        assert p !in checked;
      }
    }
  }

  lemma NothingAsked(env: Env, q: seq<Request>)
    ensures Asked(env, q, 0, {}) && Collected(env, q, 0, {}, None)
  {}

  /** Nobody has been asked while every request so far was hopeless. */
  lemma NobodyChecked(env: Env, q: seq<Request>, n: nat, checked: set<Peer>)
    requires n <= |q| && Asked(env, q, n, checked) && forall j | 0 <= j < n :: Hopeless(env, q[j])
    ensures checked == {}
  {}

  /** What a pass gives back: an oldest request that can go now, or else the one with the least wait, or
      nothing if no peer can serve any request. */
  ghost predicate Answer(env: Env, q: seq<Request>, c: Option<Choice>) {
    match c
    case Some(x) =>
      && Oldest(env, q, x.req, x.peer) && env.wait(x.req, x.peer) == x.wait
      && forall i: nat, p: Peer | First(env, q, i, p) :: x.wait <= env.wait(q[i], p)
    case None => forall i | 0 <= i < |q| :: Hopeless(env, q[i])
  }

  lemma {:induction false} SomeFirst(env: Env, q: seq<Request>, i: nat, p: Peer) returns (k: nat)
    requires i < |q| && Serves(env, q[i], p)
    ensures First(env, q, k, p)
  {
    if j: nat :| j < i && Serves(env, q[j], p) {
      k := SomeFirst(env, q, j, p);
    } else {
      k := i;
    }
  }

  /** Without a ready choice or a best one, nobody serves anything. */
  lemma NothingServed(env: Env, q: seq<Request>)
    requires Collected(env, q, |q|, {}, None)
    ensures forall i | 0 <= i < |q| :: Hopeless(env, q[i])
  {
    forall i: nat, p: Peer | i < |q| ensures !Serves(env, q[i], p) {
      if Serves(env, q[i], p) {
        var k := SomeFirst(env, q, i, p);
        assert false;
      }
    }
  }

  // ---------- the queue ----------

  ghost predicate Sorted(q: seq<Request>, order: map<Request, nat>) {
    && (forall i | 0 <= i < |q| :: q[i] in order)
    && (forall i, j | 0 <= i < j < |q| :: order[q[i]] < order[q[j]])
  }

  /** The queue is in creation order, no two requests have the same place in it, and the requests queued are
      those whose channel is open. */
  ghost predicate QueueOk(q: seq<Request>, order: map<Request, nat>, last: nat, open: set<Request>) {
    && Sorted(q, order)
    && (forall r | r in order :: 0 < order[r] <= last)
    && (forall r, s | r in order && s in order && order[r] == order[s] :: r == s)
    && (forall r :: r in open <==> r in q)
  }

  function Put(q: seq<Request>, at: nat, r: Request): seq<Request>
    requires at <= |q|
  {
    q[..at] + [r] + q[at..]
  }

  function Take(q: seq<Request>, at: nat): seq<Request>
    requires at < |q|
  {
    q[..at] + q[at + 1..]
  }

  lemma PutMembers(q: seq<Request>, at: nat, r: Request)
    requires at <= |q|
    ensures multiset(Put(q, at, r)) == multiset(q) + multiset{r} && forall x :: x in Put(q, at, r) <==> x in q || x == r
  {
    assert q == q[..at] + q[at..];
  }

  lemma TakeMembers(q: seq<Request>, at: nat)
    requires at < |q|
    ensures multiset(Take(q, at)) + multiset{q[at]} == multiset(q)
    ensures forall x :: x in q <==> x in Take(q, at) || x == q[at]
  {
    assert q == q[..at] + [q[at]] + q[at + 1..];
  }

  lemma PutSorted(q: seq<Request>, order: map<Request, nat>, at: nat, r: Request)
    requires Sorted(q, order) && at <= |q| && r in order
    requires (forall i | 0 <= i < at :: order[q[i]] < order[r]) && (at < |q| ==> order[r] < order[q[at]])
    ensures Sorted(Put(q, at, r), order)
  {}

  lemma TakeSorted(q: seq<Request>, order: map<Request, nat>, at: nat)
    requires Sorted(q, order) && at < |q|
    ensures Sorted(Take(q, at), order) && q[at] !in Take(q, at)
  {}

  lemma NumberedOk(q: seq<Request>, order: map<Request, nat>, last: nat, open: set<Request>, r: Request)
    requires QueueOk(q, order, last, open) && r !in order
    ensures QueueOk(q, order[r := last + 1], last + 1, open)
    ensures forall i | 0 <= i < |q| :: q[i] in order && order[q[i]] < last + 1
  {}

  lemma PutOk(q: seq<Request>, order: map<Request, nat>, last: nat, open: set<Request>, at: nat, r: Request)
    requires QueueOk(q, order, last, open) && at <= |q| && r in order && r !in q
    requires forall i | 0 <= i < at :: order[q[i]] < order[r]
    requires at < |q| ==> order[r] <= order[q[at]]
    ensures QueueOk(Put(q, at, r), order, last, open + {r}) && multiset(Put(q, at, r)) == multiset(q) + multiset{r}
  {
    hide Put;
    PutMembers(q, at, r);
    assert at < |q| ==> q[at] != r;
    PutSorted(q, order, at, r);
  }

  /** A request that is put into a queue it is in already has no place of its own there. */
  lemma PutTwice(q: seq<Request>, order: map<Request, nat>, at: nat, r: Request)
    requires at <= |q| && r in q
    ensures !Sorted(Put(q, at, r), order) && multiset(Put(q, at, r)) == multiset(q) + multiset{r}
  {
    PutMembers(q, at, r);
    var i :| 0 <= i < |q| && q[i] == r;
    var p := Put(q, at, r);
    assert p[at] == r && p[if i < at then i else i + 1] == r;
  }

  lemma TakeOk(q: seq<Request>, order: map<Request, nat>, last: nat, open: set<Request>, at: nat)
    requires QueueOk(q, order, last, open) && at < |q|
    ensures QueueOk(Take(q, at), order, last, open - {q[at]}) && multiset(Take(q, at)) + multiset{q[at]} == multiset(q)
    ensures q[at] !in Take(q, at)
  {
    hide Take;
    TakeMembers(q, at);
    TakeSorted(q, order, at);
  }

  /** All of a sorted queue comes before a request that the last one comes before. */
  lemma BeforeAll(q: seq<Request>, order: map<Request, nat>, n: nat)
    requires Sorted(q, order) && |q| > 0 && order[q[|q| - 1]] < n
    ensures forall i | 0 <= i < |q| :: order[q[i]] < n
  {}

  ghost predicate GivenUp(was: set<Request>, now: set<Request>, q: seq<Request>, m: nat)
    requires m <= |q|
  {
    now == was + set r | r in q[..m]
  }

  lemma GivenUpOne(was: set<Request>, now: set<Request>, q: seq<Request>, m: nat)
    requires m < |q| && GivenUp(was, now, q, m)
    ensures GivenUp(was, now + {q[m]}, q, m + 1)
  {}

  class Distributor {
    var queue: seq<Request>
    var order: map<Request, nat>
    var lastOrder: nat

    /** Requests whose channel is open, those closed without a peer, and those sent with the peer they went to. */
    var open: set<Request>
    var failed: set<Request>
    var sent: map<Request, Peer>

    ghost predicate Valid()
      reads `queue, `order, `lastOrder, `open
    {
      QueueOk(queue, order, lastOrder, open)
    }

    constructor ()
      ensures Valid() && queue == [] && lastOrder == 0
    {
      queue, order, lastOrder, open, failed, sent := [], map[], 0, {}, {}, map[];
    }

    /** Queues a request.  A request that has been queued before keeps its place in the creation order.  One that
        still is gets into the queue a second time, and then the queue is no longer in order. */
    method Queue(r: Request)
      requires Valid()
      modifies `queue, `order, `lastOrder, `open
      ensures (Valid() <==> r !in old(queue)) && multiset(queue) == old(multiset(queue)) + multiset{r}
      ensures r in order && order == old(order)[r := order[r]] && (r in old(order) ==> order[r] == old(order)[r])
      ensures r !in old(order) ==> order[r] == old(lastOrder) + 1 && queue == old(queue) + [r]
    {
      hide QueueOk;
      if r !in order {
        NumberedOk(queue, order, lastOrder, open, r);
        lastOrder := lastOrder + 1;
        order := order[r := lastOrder];
      }
      var at := Place(r);
      if r in queue {
        PutTwice(queue, order, at, r);
        NotSorted(Put(queue, at, r), order, lastOrder, open + {r});
      } else {
        PutOk(queue, order, lastOrder, open, at, r);
      }
      queue := Put(queue, at, r);
      open := open + {r};
    }

    /** Where in the queue a request belongs. */
    method Place(r: Request) returns (at: nat)
      requires Valid() && r in order
      ensures at <= |queue| && Valid() && (forall i | 0 <= i < at :: queue[i] in order && order[queue[i]] < order[r])
      ensures at < |queue| ==> queue[at] in order && order[r] <= order[queue[at]]
    {
      at := |queue|;
      if |queue| > 0 && order[r] <= order[queue[|queue| - 1]] {
        at := 0;
        while order[queue[at]] < order[r]
          invariant 0 <= at < |queue| && forall i | 0 <= i < at :: order[queue[i]] < order[r]
        {
          at := at + 1;
        }
      } else if |queue| > 0 {
        BeforeAll(queue, order, order[r]);
      }
    }

    /** Takes a request out of the queue, if it is there. */
    method Remove(r: Request)
      requires Valid()
      modifies `queue, `open
      ensures Valid() && r !in queue
      ensures if r in old(queue) then multiset(queue) + multiset{r} == old(multiset(queue)) else queue == old(queue)
      ensures |old(queue)| > 0 && old(queue)[0] == r ==> queue == old(queue)[1..]
    {
      hide QueueOk, Take;
      if r !in queue {
        return;
      }
      var at :| 0 <= at < |queue| && queue[at] == r;
      TakeOk(queue, order, lastOrder, open, at);
      TakeFirst(queue, order, lastOrder, open, at);
      queue := Take(queue, at);
      open := open - {r};
    }

    /** Cancels a request that has not been sent. */
    method Cancel(r: Request) returns (ok: bool)
      requires Valid()
      modifies `queue, `open, `failed
      ensures Valid() && ok == (r in old(queue)) && r !in queue
      ensures !ok ==> queue == old(queue) && failed == old(failed)
      ensures ok ==> failed == old(failed) + {r} && multiset(queue) + multiset{r} == old(multiset(queue))
    {
      if r !in open {
        return false;
      }
      failed := failed + {r};
      Remove(r);
      return true;
    }

    /** Finds what to send next.  Requests at the front that nobody can serve are closed as failed, and no
        others: what remains is the queue from the first request on that some peer can serve. */
    method NextRequest(env: Env) returns (c: Option<Choice>, ghost m: nat)
      requires Valid()
      modifies `queue, `open, `failed
      ensures Valid() && Answer(env, old(queue), c)
      ensures m <= |old(queue)| && queue == old(queue)[m..] && GivenUp(old(failed), failed, old(queue), m)
      ensures (forall i | 0 <= i < m :: Hopeless(env, old(queue)[i]))
              && (m < |old(queue)| ==> !Hopeless(env, old(queue)[m]))
    {
      hide Collected, Asked, Added, Answer, QueueOk, GivenUp;
      ghost var q := queue;
      var checked: set<Peer>, ready: set<(Peer, Request)>, best: Option<Choice> := {}, {}, None;
      NothingAsked(env, q);
      NoneGivenUp(failed, q);
      var i, front := 0, 0;
      var all := queue;
      while (env.peers != {} || i == front) && i < |all|
        invariant 0 <= front <= i <= |q| && all == q && Valid() && queue == q[front..]
                  && GivenUp(old(failed), failed, q, front)
        invariant Asked(env, q, i, checked) && Collected(env, q, i, ready, best)
        invariant (forall j | 0 <= j < front :: Hopeless(env, q[j])) && (front < i ==> !Hopeless(env, q[front]))
        invariant env.peers == {} ==> front == i
        decreases |all| - i
      {
        var req := all[i];
        if i == front {
          NobodyChecked(env, q, i, checked);
        }
        var canSend, checked', ready', best' := Ask(env, req, checked, ready, best);
        AskedOne(env, q, i, checked, ready, best, checked', ready', best');
        checked, ready, best := checked', ready', best';
        if !canSend && i == front {
          GivenUpOne(old(failed), failed, q, front);
          failed := failed + {req};
          assert queue[0] == req;
          Remove(req);
          front := front + 1;
        }
        i := i + 1;
      }
      if ready != {} {
        var x :| x in ready;
        c := Some(Choice(x.0, x.1, 0));
      } else {
        c := best;
      }
      m := front;
      Answered(env, q, ready, best, c);
    }

    /** Sends what can be sent now: the oldest request that its peer can serve, and no other leaves the queue
        but those given up. */
    method Dispatch(env: Env) returns (c: Option<Choice>, ghost m: nat)
      requires Valid()
      modifies `queue, `open, `failed, `sent
      ensures Valid() && Answer(env, old(queue), c) && m <= |old(queue)| && GivenUp(old(failed), failed, old(queue), m)
      ensures forall i | 0 <= i < m :: Hopeless(env, old(queue)[i])
      ensures c.Some? && c.value.wait == 0 ==>
                && sent == old(sent)[c.value.req := c.value.peer]
                && multiset(queue) + multiset{c.value.req} == multiset(old(queue)[m..])
      ensures !(c.Some? && c.value.wait == 0) ==> sent == old(sent) && queue == old(queue)[m..]
    {
      hide QueueOk, GivenUp;
      c, m := NextRequest(env);
      if c.Some? && c.value.wait == 0 {
        StillQueued(env, old(queue), c.value, m);
        Remove(c.value.req);
        sent := sent[c.value.req := c.value.peer];
      }
    }
  }

  lemma NotSorted(q: seq<Request>, order: map<Request, nat>, last: nat, open: set<Request>)
    requires !Sorted(q, order)
    ensures !QueueOk(q, order, last, open)
  {}

  lemma NoneGivenUp(failed: set<Request>, q: seq<Request>)
    ensures GivenUp(failed, failed, q, 0)
  {}

  lemma TakeFirst(q: seq<Request>, order: map<Request, nat>, last: nat, open: set<Request>, at: nat)
    requires QueueOk(q, order, last, open) && at < |q|
    ensures q[0] == q[at] ==> Take(q, at) == q[1..]
  {}

  /** A request that some peer can serve has not been given up. */
  lemma StillQueued(env: Env, q: seq<Request>, x: Choice, m: nat)
    requires Oldest(env, q, x.req, x.peer) && m <= |q| && forall i | 0 <= i < m :: Hopeless(env, q[i])
    ensures x.req in q[m..]
  {}

  lemma Answered(env: Env, q: seq<Request>, ready: set<(Peer, Request)>, best: Option<Choice>, c: Option<Choice>)
    requires Collected(env, q, |q|, ready, best)
    requires if ready != {} then c.Some? && (c.value.peer, c.value.req) in ready && c.value.wait == 0 else c == best
    ensures Answer(env, q, c)
  {
    if ready == {} && best == None {
      NothingServed(env, q);
    }
  }
}
