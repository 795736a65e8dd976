/** One-to-many delivery: `Send` offers a value to every subscribed channel, keeping those still to be served
    in a prefix of the one array of cases while receivers are slow and subscriptions end. */
module Feeds {
  import opened Transactions

  type Channel = nat

  /** What a case selects on: the requests to end a subscription, always the first case, or a subscriber's channel. */
  datatype End = RemoveSub | Sub(channel: Channel)

  /** A case to select on, with the value to be sent while one is. */
  datatype Case<V> = Case(end: End, send: Option<V>)

  /** A value that a subscriber has taken. */
  datatype Delivery<V> = Delivery(to: End, value: V)

  ghost function Ends<V>(s: seq<Case<V>>): seq<End> {
    seq(|s|, i requires 0 <= i < |s| => s[i].end)
  }

  /** Who has taken something. */
  ghost function Receivers<V>(log: seq<Delivery<V>>): multiset<End> {
    multiset(seq(|log|, i requires 0 <= i < |log| => log[i].to))
  }

  /** Some wait is told to end a subscription of the channel. */
  ghost predicate Asked(asks: nat -> Option<Channel>, c: End) {
    exists j :: c.Sub? && asks(j) == Some(c.channel)
  }

  /** All but the first case are subscribers', and these hold what is to be sent. */
  ghost predicate Offering<V>(s: seq<Case<V>>, send: Option<V>) {
    |s| > 0 && s[0].end == RemoveSub && forall i | 1 <= i < |s| :: s[i].end.Sub? && s[i].send == send
  }

  /** How far a delivery has got.  The subscribers at its start, `all`, are those of the array and those
      `removed` since; `served` are those of the array behind the prefix and some of the removed. */
  ghost predicate Progress(s: seq<End>, k: nat, all: multiset<End>, served: multiset<End>, removed: multiset<End>) {
    && 1 <= k <= |s| && s[0] == RemoveSub && (forall i | 1 <= i < |s| :: s[i].Sub?)
    && multiset(s[1..]) + removed == all
    && multiset(s[k..]) <= served <= multiset(s[k..]) + removed
  }

  function Swap<T>(s: seq<T>, i: nat, j: nat): seq<T>
    requires i < |s| && j < |s|
  {
    s[i := s[j]][j := s[i]]
  }

  function Without<T>(s: seq<T>, i: nat): seq<T>
    requires i < |s|
  {
    s[..i] + s[i + 1..]
  }

  lemma SwapKeeps(s: seq<End>, lo: nat, i: nat, j: nat)
    requires lo <= i <= j < |s|
    ensures multiset(Swap(s, i, j)[lo..]) == multiset(s[lo..])
  {}

  lemma WithoutOne(s: seq<End>, lo: nat, i: nat)
    requires lo <= i < |s|
    ensures multiset(Without(s, i)[lo..]) + multiset{s[i]} == multiset(s[lo..])
  {
    assert s[lo..] == s[lo..i] + [s[i]] + s[i + 1..];
    assert Without(s, i)[lo..] == s[lo..i] + s[i + 1..];
  }

  lemma WithoutOffering<V>(s: seq<Case<V>>, i: nat, send: Option<V>)
    requires Offering(s, send) && 1 <= i < |s|
    ensures Offering(Without(s, i), send) && Ends(Without(s, i)) == Without(Ends(s), i)
  {}

  lemma SwapOffering<V>(s: seq<Case<V>>, i: nat, j: nat, send: Option<V>)
    requires Offering(s, send) && 1 <= i <= j < |s|
    ensures Offering(Swap(s, i, j), send) && Ends(Swap(s, i, j)) == Swap(Ends(s), i, j)
  {}

  lemma EndsAppend<V>(s: seq<Case<V>>, t: seq<Case<V>>)
    ensures Ends(s + t) == Ends(s) + Ends(t)
  {}

  /** One more delivery in the log. */
  lemma Logged<V>(log: seq<Delivery<V>>, from: nat, d: Delivery<V>)
    requires from <= |log|
    ensures Receivers((log + [d])[from..]) == Receivers(log[from..]) + multiset{d.to}
    ensures |Receivers(log[from..])| == |log| - from
  {
    var s := seq(|log| - from, i requires 0 <= i < |log| - from => log[from..][i].to);
    var t := seq(|log| + 1 - from, i requires 0 <= i < |log| + 1 - from => (log + [d])[from..][i].to);
    assert t == s + [d.to];
  }

  /** A subscriber has been served and moves behind the prefix. */
  lemma Served(s: seq<End>, k: nat, i: nat, all: multiset<End>, served: multiset<End>, removed: multiset<End>)
    requires Progress(s, k, all, served, removed) && 1 <= i < k
    ensures Progress(Swap(s, i, k - 1), k - 1, all, served + multiset{s[i]}, removed)
  {
    hide Swap;
    SwapKeeps(s, 1, i, k - 1);
    SwapTail(s, i, k);
  }

  lemma SwapTail(s: seq<End>, i: nat, k: nat)
    requires 1 <= i < k <= |s| && forall j | 1 <= j < |s| :: s[j].Sub?
    ensures var t := Swap(s, i, k - 1);
            && |t| == |s| && t[0] == s[0] && (forall j | 1 <= j < |t| :: t[j].Sub?)
            && multiset(t[k - 1..]) == multiset(s[k..]) + multiset{s[i]}
  {
    assert Swap(s, i, k - 1)[k - 1..] == [s[i]] + s[k..];
  }

  /** A subscription has ended, before or after its channel was served. */
  lemma Ended(s: seq<End>, k: nat, i: nat, all: multiset<End>, served: multiset<End>, removed: multiset<End>)
    requires Progress(s, k, all, served, removed) && 1 <= i < |s|
    ensures Progress(Without(s, i), if i < k then k - 1 else k, all, served, removed + multiset{s[i]})
  {
    var t := Without(s, i);
    WithoutOne(s, 1, i);
    if i < k {
      assert t[k - 1..] == s[k..];
    } else {
      WithoutOne(s, k, i);
    }
  }

  class Feed<V> {
    var cases: array<Case<V>>
    var count: nat
    var inbox: seq<Case<V>>

    /** What subscribers have taken, and the requests to end a subscription that were met while sending. */
    var log: seq<Delivery<V>>
    var ended: seq<End>

    /** Between two deliveries no case holds a value. */
    ghost predicate Valid()
      reads this, cases
    {
      && 1 <= count <= cases.Length && Offering(cases[..count], None)
      && forall i | 0 <= i < |inbox| :: inbox[i].end.Sub? && inbox[i].send == None
    }

    /** The subscriptions that a delivery under way is for. */
    ghost function Joined(): multiset<End>
      requires Valid()
      reads this, cases
    {
      multiset(Ends(cases[..count])[1..])
    }

    /** The subscriptions, as a multiset: a channel may be subscribed more than once. */
    ghost function Subscribers(): multiset<End>
      requires Valid()
      reads this, cases
    {
      Joined() + multiset(Ends(inbox))
    }

    constructor ()
      ensures Valid() && fresh(cases) && Subscribers() == multiset{} && log == []
    {
      cases := new Case<V>[1](_ => Case(RemoveSub, None));
      count, inbox, log, ended := 1, [], [], [];
    }

    method Subscribe(channel: Channel)
      requires Valid()
      modifies `inbox
      ensures Valid() && Subscribers() == old(Subscribers()) + multiset{Sub(channel)}
    {
      var c: Case<V> := Case(Sub(channel), None);
      EndsAppend(inbox, [c]);
      assert Ends([c]) == [Sub(channel)];
      inbox := inbox + [c];
    }

    /** The index of the first case of a channel, or -1. */
    static method Find(cs: seq<Case<V>>, c: End) returns (index: int)
      ensures -1 <= index < |cs| && (index >= 0 ==> cs[index].end == c) && (index == -1 <==> c !in Ends(cs))
      ensures forall i | 0 <= i < index :: cs[i].end != c
    {
      for i := 0 to |cs|
        invariant forall j | 0 <= j < i :: cs[j].end != c
      {
        if cs[i].end == c {
          assert Ends(cs)[i] == c;
          return i;
        }
      }
      assert forall j | 0 <= j < |Ends(cs)| :: Ends(cs)[j] == cs[j].end;
      return -1;
    }

    /** Removes a case in place: those behind it move up. */
    method Delete(index: nat)
      requires index < count <= cases.Length
      modifies `count, cases
      ensures count == old(count) - 1 && cases[..count] == Without(old(cases[..count]), index)
    {
      ghost var s := cases[..count];
      var i := index;
      while i + 1 < count
        invariant index <= i < count
        invariant forall j | 0 <= j < index :: cases[j] == s[j]
        invariant forall j | index < j <= i :: cases[j - 1] == s[j]
        invariant forall j | i < j < count :: cases[j] == s[j]
        modifies cases
      {
        cases[i] := cases[i + 1];
        i := i + 1;
      }
      count := count - 1;
    }

    /** Moves a case of the first `k` out of that prefix. */
    method Deactivate(k: nat, index: nat) returns (k': nat)
      requires index < k <= count <= cases.Length
      modifies cases
      ensures k' == k - 1 && cases[..count] == Swap(old(cases[..count]), index, k - 1)
    {
      k' := k - 1;
      cases[index], cases[k'] := cases[k'], cases[index];
    }

    /** Ends a subscription while nothing is being sent.  For a channel that is not subscribed this is a panic,
        which leaves everything as it was. */
    method Remove(channel: Channel) returns (panics: bool)
      requires Valid()
      modifies `inbox, `count, cases
      ensures Valid() && (panics <==> Sub(channel) !in old(Subscribers()))
      ensures Subscribers() + (if panics then multiset{} else multiset{Sub(channel)}) == old(Subscribers())
    {
      hide Ends, Without, Offering;
      var c := Sub(channel);
      var index := Find(inbox, c);
      if index != -1 {
        InboxLess(inbox, index);
        inbox := Without(inbox, index);
        return false;
      }
      panics := RemoveCase(c);
    }

    method RemoveCase(c: End) returns (panics: bool)
      requires Valid() && c.Sub?
      modifies `count, cases
      ensures Valid() && (panics <==> c !in old(Joined()))
      ensures Joined() + (if panics then multiset{} else multiset{c}) == old(Joined())
    {
      hide Without;
      ghost var s := cases[..count];
      var index := Find(cases[..count], c);
      if index == -1 {
        assert c !in Ends(s)[1..];
        return true;
      }
      assert c == Ends(s)[1..][index - 1];
      panics := false;
      WithoutOne(Ends(s), 1, index);
      WithoutOffering(s, index, None);
      Delete(index);
    }

    /** How far a delivery has got that started with the log at `from` and the requests at `gone`. */
    ghost predicate Sending(value: V, k: nat, all: multiset<End>, from: nat, gone: nat)
      reads `cases, `count, `log, `ended, cases
    {
      && count <= cases.Length && from <= |log| && gone <= |ended| && Offering(cases[..count], Some(value))
      && Progress(Ends(cases[..count]), k, all, Receivers(log[from..]), multiset(ended[gone..]))
      && forall i | from <= i < |log| :: log[i].value == value
    }

    /** Offers the value to everyone in the prefix without waiting; who takes it leaves the prefix. */
    method TrySends(value: V, k: nat, ghost all: multiset<End>, ghost from: nat, ghost gone: nat)
      returns (k': nat, sent: nat)
      requires Sending(value, k, all, from, gone)
      modifies `log, cases
      ensures 1 <= k' <= k && Sending(value, k', all, from, gone) && old(log) <= log && sent == |log| - |old(log)|
    {
      hide Sending, Swap;
      Range(value, k, all, from, gone);
      k', sent := k, 0;
      var i := 1;
      while i < k'
        invariant 1 <= i && 1 <= k' <= k <= count <= cases.Length && Sending(value, k', all, from, gone)
        invariant old(log) <= log && sent == |log| - |old(log)|
        decreases k' - i
      {
        var took: bool := *;
        if took {
          k' := Take(value, k', i, value, all, from, gone);
          sent := sent + 1;
        } else {
          i := i + 1;
        }
      }
    }

    /** A subscriber takes what it is offered. */
    method Take(value: V, k: nat, i: nat, offer: V, ghost all: multiset<End>, ghost from: nat, ghost gone: nat)
      returns (k': nat)
      requires Sending(value, k, all, from, gone) && 1 <= i < k <= count <= cases.Length && offer == value
      modifies `log, cases
      ensures k' == k - 1 && Sending(value, k', all, from, gone)
      ensures log == old(log) + [Delivery(old(cases[i].end), value)]
    {
      hide Progress, Swap, Ends, Offering, Receivers;
      ghost var s := cases[..count];
      EndAt(s, i);
      Served(Ends(s), k, i, all, Receivers(log[from..]), multiset(ended[gone..]));
      SwapOffering(s, i, k - 1, Some(value));
      Logged(log, from, Delivery(cases[i].end, offer));
      log := log + [Delivery(cases[i].end, offer)];
      k' := Deactivate(k, i);
    }

    lemma Range(value: V, k: nat, all: multiset<End>, from: nat, gone: nat)
      requires Sending(value, k, all, from, gone)
      ensures 1 <= k <= count <= cases.Length && gone <= |ended|
      ensures forall i | 1 <= i < count :: cases[i].send == Some(value)
      ensures k > 1 ==> Ends(cases[..count])[1] in Ends(cases[..count])[1..] && RemoveSub !in Ends(cases[..count])[1..]
    {
      assert forall i | 1 <= i < count :: cases[i] == cases[..count][i];
    }

    /** Waits until a request to end a subscription comes in, if `ask` is one, or else until a receiver takes the value
        of its case. */
    method Wait(value: V, k: nat, ask: Option<Channel>, ghost all: multiset<End>, ghost from: nat, ghost gone: nat)
      returns (k': nat, sent: nat)
      requires Sending(value, k, all, from, gone) && k > 1
      modifies `log, `ended, `count, cases
      ensures 1 <= k' <= count && count + k' < old(count) + k && Sending(value, k', all, from, gone)
      ensures old(log) <= log && old(ended) <= ended && sent == |log| - |old(log)|
      ensures if sent == 0 then ask.Some? && ended == old(ended) + [Sub(ask.value)]
              else sent == 1 && ended == old(ended)
    {
      hide Sending;
      Range(value, k, all, from, gone);
      k', sent := k, 0;
      var index := -1;
      if ask.Some? {
        index := Find(cases[..count], Sub(ask.value));
      }
      if index > 0 {
        EndAt(cases[..count], index);
        k' := EndOne(value, k, Sub(ask.value), all, from, gone);
      } else {
        var chosen: nat :| 1 <= chosen < k;
        k' := Take(value, k, chosen, cases[chosen].send.value, all, from, gone);
        sent := 1;
      }
      Range(value, k', all, from, gone);
    }

    /** Meets a request to end a subscription. */
    method EndOne(value: V, k: nat, c: End, ghost all: multiset<End>, ghost from: nat, ghost gone: nat)
      returns (k': nat)
      requires Sending(value, k, all, from, gone) && c in Ends(cases[..count])[1..]
      modifies `ended, `count, cases
      ensures k' <= k && count == old(count) - 1 && Sending(value, k', all, from, gone) && ended == old(ended) + [c]
    {
      hide Progress, Without, Ends, Offering, Receivers;
      ghost var s := cases[..count];
      Range(value, k, all, from, gone);
      var index := Find(cases[..count], c);
      EndAt(s, 0);
      First(s, Some(value), c);
      EndAt(s, index);
      Ended(Ends(s), k, index, all, Receivers(log[from..]), multiset(ended[gone..]));
      WithoutOffering(s, index, Some(value));
      assert (ended + [c])[gone..] == ended[gone..] + [c];
      ended := ended + [c];
      Delete(index);
      k' := if index < k then k - 1 else k;
    }

    /** Other threads, which while a value is being delivered can subscribe and take such a subscription back. */
    method Others()
      modifies `inbox
      ensures forall i | 0 <= i < |inbox| :: inbox[i].end.Sub? && inbox[i].send == None
    {
      var channels: seq<Channel> := *;
      inbox := seq(|channels|, i requires 0 <= i < |channels| => Case(Sub(channels[i]), None));
    }

    /** Delivers to all who were subscribed at the start: the log grows by as many deliveries as are counted, all of
        the value.  Whoever is still subscribed at the end has been served exactly once, and whoever was removed
        meanwhile, as was asked for at some wait, at most once.  Those who have subscribed since wait for the next
        value. */
    method Send(value: V, asks: nat -> Option<Channel>) returns (sent: nat)
      requires Valid()
      modifies this, cases
      ensures Valid() && old(log) <= log && old(ended) <= ended
      ensures forall i | |old(ended)| <= i < |ended| :: Asked(asks, ended[i])
      ensures Joined() + multiset(ended[|old(ended)|..]) == old(Subscribers())
      ensures Joined() <= Receivers(log[|old(log)|..]) <= old(Subscribers())
      ensures sent == |log| - |old(log)| && forall i | |old(log)| <= i < |log| :: log[i].value == value
    {
      hide Sending, Offering, Ends, Receivers, Progress;
      TakeInbox();
      ghost var all, from, gone := Subscribers(), |log|, |ended|;
      SetAll(None, Some(value));
      Begins(value, from, gone);
      sent := 0;
      var k, turn := count, 0;
      while true
        invariant 1 <= k <= count <= cases.Length && fresh(cases)
        invariant forall i | 0 <= i < |inbox| :: inbox[i].end.Sub? && inbox[i].send == None
        invariant Sending(value, k, all, from, gone)
        invariant old(log) <= log && old(ended) <= ended && sent == |log| - |old(log)|
        invariant forall i | |old(ended)| <= i < |ended| :: Asked(asks, ended[i])
        modifies `count, `inbox, `log, `ended, cases
        decreases count + k
      {
        var more;
        k, more := TrySends(value, k, all, from, gone);
        sent := sent + more;
        Others();
        if k == 1 {
          break;
        }
        var got;
        k, got := Wait(value, k, asks(turn), all, from, gone);
        sent, turn := sent + got, turn + 1;
        Range(value, k, all, from, gone);
      }
      Finished(value, all, from, gone);
      SetAll(Some(value), None);
    }

    /** Gives every subscriber's case the value to send, or takes it away again. */
    method SetAll(ghost was: Option<V>, send: Option<V>)
      requires 1 <= count <= cases.Length && Offering(cases[..count], was)
      modifies cases
      ensures Offering(cases[..count], send) && Ends(cases[..count]) == old(Ends(cases[..count]))
    {
      ghost var s := cases[..count];
      for i := 1 to count
        invariant forall j | 1 <= j < i :: cases[j] == Case(s[j].end, send)
        invariant forall j | i <= j < count :: cases[j] == s[j]
        invariant cases[0] == s[0]
      {
        cases[i] := cases[i].(send := send);
      }
    }

    lemma Begins(value: V, from: nat, gone: nat)
      requires 1 <= count <= cases.Length && Offering(cases[..count], Some(value)) && from == |log| && gone == |ended|
      ensures Sending(value, count, multiset(Ends(cases[..count])[1..]), from, gone)
    {}

    lemma Finished(value: V, all: multiset<End>, from: nat, gone: nat)
      requires Sending(value, 1, all, from, gone)
      ensures 1 <= count <= cases.Length && from <= |log| && gone <= |ended| && Offering(cases[..count], Some(value))
      ensures var joined := multiset(Ends(cases[..count])[1..]);
              && joined + multiset(ended[gone..]) == all && joined <= Receivers(log[from..]) <= all
      ensures forall i | from <= i < |log| :: log[i].value == value
    {}

    /** New subscribers join the array. */
    method TakeInbox()
      requires Valid()
      modifies this
      ensures Valid() && fresh(cases) && inbox == [] && Subscribers() == old(Subscribers())
      ensures log == old(log) && ended == old(ended)
      ensures Subscribers() == multiset(Ends(cases[..count])[1..])
    {
      ghost var was := cases[..count];
      var s := cases[..count] + inbox;
      var a := new Case<V>[|s|](i requires 0 <= i < |s| => s[i]);
      assert a[..] == s;
      EndsAppend(was, inbox);
      assert Ends(s)[1..] == Ends(was)[1..] + Ends(inbox);
      cases, count, inbox := a, |s|, [];
      assert cases[..count] == s;
      assert Ends(inbox) == [];
    }
  }

  lemma InboxLess<V>(s: seq<Case<V>>, i: nat)
    requires i < |s| && forall j | 0 <= j < |s| :: s[j].end.Sub? && s[j].send == None
    ensures multiset(Ends(Without(s, i))) + multiset{s[i].end} == multiset(Ends(s)) && s[i].end in Ends(s)
    ensures var t := Without(s, i); forall j | 0 <= j < |t| :: t[j].end.Sub? && t[j].send == None
  {
    WithoutOne(Ends(s), 0, i);
    assert Ends(s)[0..] == Ends(s) && Without(Ends(s), i)[0..] == Ends(Without(s, i));
    assert Ends(s)[i] == s[i].end;
  }

  lemma EndAt<V>(s: seq<Case<V>>, i: nat)
    requires i < |s|
    ensures |Ends(s)| == |s| && Ends(s)[i] == s[i].end && (i > 0 ==> s[i].end in Ends(s)[1..])
  {
    if i > 0 {
      assert Ends(s)[1..][i - 1] == s[i].end;
    }
  }

  /** The first case is no subscriber's. */
  lemma First<V>(s: seq<Case<V>>, send: Option<V>, c: End)
    requires Offering(s, send) && |Ends(s)| == |s| && c in Ends(s)[1..]
    ensures s[0].end != c && c in Ends(s)
  {}
}
