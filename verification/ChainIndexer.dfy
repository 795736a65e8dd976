/** The section index over the canonical chain: the last hash of every full section that has enough
    confirmations, taken back to the fork point when the chain reorganises. */
module ChainIndexers {
  import opened Transactions
  import opened BlockTree
  import opened Branches
  import opened BlockChains

  /** The last block of a section of `size` blocks. */
  function Last(size: nat, section: nat): int {
    (section + 1) * size - 1
  }

  function Max(a: nat, b: nat): nat {
    if a < b then b else a
  }

  function Min(a: nat, b: nat): nat {
    if a < b then a else b
  }

  /** Stored heads are the canonical hashes of their sections' last blocks. */
  ghost predicate HeadsOk(heads: map<nat, Hash>, stored: nat, size: nat, path: Path) {
    && (forall s: nat :: s in heads <==> s < stored)
    && (forall s: nat | s < stored :: 0 <= Last(size, s) < |path| && heads[s] == path[Last(size, s)])
  }

  /** Whole sections fit. */
  predicate Fit(sections: nat, size: nat, blocks: nat) {
    sections * size <= blocks
  }

  lemma FitBelow(s: nat, sections: nat, size: nat, blocks: nat)
    requires Fit(sections, size, blocks) && s < sections && size > 0
    ensures 0 <= Last(size, s) < blocks && Last(size, s) < sections * size
  {
    assert (s + 1) * size <= sections * size;
    assert (s + 1) * size == s * size + size;
    assert s * size >= 0;
  }

  lemma Quotient(n: nat, size: nat)
    requires size > 0
    ensures Fit(n / size, size, n) && n < (n / size + 1) * size
  {}

  /** Where the paths agree the section heads stay right. */
  lemma HeadsAgree(heads: map<nat, Hash>, stored: nat, size: nat, p: Path, q: Path, m: nat)
    requires HeadsOk(heads, stored, size, p) && size > 0 && ForkAt(p, q, m) && stored <= m / size
    ensures HeadsOk(heads, stored, size, q)
  {
    Quotient(m, size);
    forall s: nat | s < stored ensures 0 <= Last(size, s) < |q| && heads[s] == q[Last(size, s)] {
      FitBelow(s, m / size, size, m);
      assert p[..m + 1][Last(size, s)] == q[..m + 1][Last(size, s)];
    }
  }

  /** The sections known once the head is at a number. */
  function Confirmed(known: nat, head: nat, size: nat, confirms: nat): nat
    requires size > 0
  {
    if head >= confirms then Max(known, (head + 1 - confirms) / size) else known
  }

  /** What is stored and known when the chain has gone from one path to another: what was, down to the fork
      point, and what the new head confirms. */
  ghost predicate Rewound(p: Path, q: Path, stored: nat, known: nat, size: nat, confirms: nat, head: nat,
                          stored': nat, known': nat)
    requires size > 0
  {
    exists m: nat :: ForkAt(p, q, m) && stored' == Min(stored, m / size)
                     && known' == Confirmed(Min(known, m / size), head, size, confirms)
  }

  /** A change of the chain: its headers, its index and its head after it. */
  datatype Event = Event(headers: Tree, canon: map<nat, Hash>, head: Header)

  /** Nothing is lost. */
  ghost predicate Grows(was: Tree, now: Tree) {
    forall h | h in was :: h in now && now[h] == was[h]
  }

  lemma GrowsNot(tree: Tree)
    ensures Grows(tree, tree)
  {}

  lemma GrowsOn(a: Tree, b: Tree, c: Tree)
    requires Grows(a, b) && Grows(b, c)
    ensures Grows(a, c)
  {}

  /** The changes follow on one another. */
  ghost predicate Story(headers: Tree, genesis: Hash, events: seq<Event>)
    decreases |events|
  {
    events == [] || (
      var e := events[0];
      && Closed(e.headers, genesis) && e.head.hash in e.headers && e.headers[e.head.hash] == e.head
      && Grows(headers, e.headers) && IndexedBy(e.canon, PathTo(e.headers, genesis, e.head.hash), e.head.number)
      && Story(e.headers, genesis, events[1..]))
  }

  lemma StoryParts(headers: Tree, genesis: Hash, events: seq<Event>)
    requires Story(headers, genesis, events) && events != []
    ensures forall h | h in headers :: h in events[0].headers && events[0].headers[h] == headers[h]
  {}

  /** The headers after them. */
  ghost function After(headers: Tree, events: seq<Event>): Tree {
    if events == [] then headers else events[|events| - 1].headers
  }

  /** Several such stories, one after the other. */
  ghost predicate Told(headers: Tree, genesis: Hash, turns: seq<seq<Event>>)
    decreases |turns|
  {
    turns == [] || (Story(headers, genesis, turns[0]) && Told(After(headers, turns[0]), genesis, turns[1..]))
  }

  lemma Telling(headers: Tree, genesis: Hash, turns: seq<seq<Event>>, i: nat)
    requires i < |turns| && Told(headers, genesis, turns[i..])
    ensures Story(headers, genesis, turns[i]) && Told(After(headers, turns[i]), genesis, turns[i + 1..])
  {
    assert turns[i..][0] == turns[i] && turns[i..][1..] == turns[i + 1..];
  }

  /** The first of the heads. */
  ghost function Restrict(heads: map<nat, Hash>, stored: nat): map<nat, Hash> {
    map s | s in heads && s < stored :: heads[s]
  }

  lemma RestrictAll(heads: map<nat, Hash>, stored: nat)
    requires forall s: nat :: s in heads <==> s < stored
    ensures Restrict(heads, stored) == heads
  {}

  lemma RestrictNone(heads: map<nat, Hash>)
    ensures Restrict(heads, 0) == map[]
  {}

  lemma RestrictOn(heads: map<nat, Hash>, a: nat, b: nat)
    requires b <= a
    ensures Restrict(Restrict(heads, a), b) == Restrict(heads, b)
    ensures Restrict(Restrict(heads, a), b) == map s | s in Restrict(heads, a) && s < b :: Restrict(heads, a)[s]
  {}

  /** What has been read from number `from` up to `to` are headers linked to one another and to `before`, and end in
      `head`. */
  ghost predicate Linking(headers: Tree, genesis: Hash, from: nat, to: nat, before: Hash, head: Hash, read: seq<Hash>) {
    && Closed(headers, genesis) && head in headers && from < to && headers[head].number == to - 1
    && var p := PathTo(headers, genesis, head);
       read == p[from..to] && (from > 0 ==> p[from - 1] == before)
  }

  lemma LinkingGrown(headers: Tree, headers': Tree, genesis: Hash, from: nat, to: nat, before: Hash, head: Hash,
                     read: seq<Hash>)
    requires Linking(headers, genesis, from, to, before, head, read) && Grows(headers, headers')
    requires Closed(headers', genesis)
    ensures Linking(headers', genesis, from, to, before, head, read)
  {
    SamePath(headers, headers', genesis, head);
  }

  lemma LinkingNext(headers: Tree, genesis: Hash, from: nat, n: nat, before: Hash, last: Hash, read: seq<Hash>,
                    x: Header)
    requires Closed(headers, genesis) && x.hash in headers && headers[x.hash] == x && x.number == n >= from
    requires if n == from then x.parent == before && read == []
             else Linking(headers, genesis, from, n, before, last, read) && x.parent == last
    ensures Linking(headers, genesis, from, n + 1, before, x.hash, read + [x.hash])
  {
    AtHeader(headers, genesis, x.hash);
    var p := PathTo(headers, genesis, x.hash);
    if n > 0 {
      var q := PathTo(headers, genesis, x.parent);
      assert p == q + [x.hash] && |q| == n && q[n - 1] == x.parent;
      assert n > from ==> p[from..n + 1] == q[from..n] + [x.hash];
    }
    assert n == from ==> p[from..n + 1] == [x.hash];
  }

  class ChainIndexer {
    const genesis: Hash
    const size: nat
    const confirms: nat

    // the chain as the indexer's database shows it
    var headers: Tree
    var canon: map<nat, Hash>

    var heads: map<nat, Hash>
    var count: nat
    var stored: nat
    var known: nat
    var prev: Header

    ghost predicate ChainOk()
      reads `headers, `canon, `prev
    {
      && Closed(headers, genesis) && prev.hash in headers && headers[prev.hash] == prev
      && IndexedBy(canon, PathTo(headers, genesis, prev.hash), prev.number)
    }

    ghost function Chain(): Path
      requires ChainOk()
      reads `headers, `canon, `prev
    {
      PathTo(headers, genesis, prev.hash)
    }

    ghost predicate Valid()
      reads this
    {
      && size > 0 && ChainOk() && count == stored && HeadsOk(heads, stored, size, Chain())
          && Fit(known, size, |Chain()|)
    }

    constructor (g: Header, size: nat, confirms: nat)
      requires g.number == 0 && g.hash != 0 && g.parent == 0 && size > 0
      ensures Valid() && stored == 0 && this.size == size && this.confirms == confirms && headers == map[g.hash := g]
    {
      genesis, this.size, this.confirms := g.hash, size, confirms;
      headers, canon, heads := map[g.hash := g], map[0 := g.hash], map[];
      count, stored, known, prev := 0, 0, 0, g;
      new;
      assert Linked(headers, genesis, genesis);
    }

    /** Sets the number of valid sections, forgetting the heads of those beyond it. */
    method SetValidSections(sections: nat)
      requires forall s: nat :: s in heads <==> s < stored || s < sections
      modifies `heads, `count, `stored
      ensures stored == count == sections
      ensures heads == map s | s in old(heads) && s < sections :: old(heads)[s]
    {
      count := sections;
      while stored > sections
        invariant stored <= old(stored) && count == sections
        invariant heads == map s | s in old(heads) && (s < stored || s < sections) :: old(heads)[s]
      {
        stored := stored - 1;
        heads := heads - {stored};
      }
      stored := sections;
    }

    /** A head that extends the chain: sections with enough confirmations become known. */
    method NewHead(head: nat)
      requires size > 0
      modifies `known
      ensures known == Confirmed(old(known), head, size, confirms)
    {
      if head >= confirms {
        var sections := (head + 1 - confirms) / size;
        if sections > known {
          known := sections;
        }
      }
    }

    /** A reorganisation down to a block: the sections below it stay known and stored, those that reach above it
        do not. */
    method Rollback(head: nat)
      requires size > 0 && forall s: nat :: s in heads <==> s < stored
      modifies `heads, `count, `stored, `known
      ensures known == Min(old(known), head / size) && stored == Min(old(stored), head / size)
      ensures count == if stored == old(stored) then old(count) else stored
      ensures heads == map s | s in old(heads) && s < stored :: old(heads)[s]
    {
      var changed := head / size;
      if changed < known {
        known := changed;
      }
      if changed < stored {
        SetValidSections(changed);
      }
    }

    /** The chain has a new head, perhaps on another branch, and the indexer is told in the same step.  Exactly
        the section heads above the fork point go. */
    method ChainEvent(headers': Tree, canon': map<nat, Hash>, head: Header)
      requires Valid()
      requires Closed(headers', genesis) && head.hash in headers' && headers'[head.hash] == head
      requires forall h | h in headers :: h in headers' && headers'[h] == headers[h]
      requires IndexedBy(canon', PathTo(headers', genesis, head.hash), head.number)
      modifies `headers, `canon, `prev, `heads, `count, `stored, `known
      ensures Valid() && headers == headers' && prev == head
      ensures stored <= old(stored) && heads == map s | s in old(heads) && s < stored :: old(heads)[s]
      ensures head.parent == old(prev).hash ==>
                stored == old(stored) && known == Confirmed(old(known), head.number, size, confirms)
      ensures head.parent != old(prev).hash ==>
                Rewound(old(Chain()), Chain(), old(stored), old(known), size, confirms, head.number, stored, known)
    {
      hide PathTo, Closed, IndexedBy, HeadsOk, ForkAt, Fit, Confirmed;
      ghost var p, q := Chain(), PathTo(headers', genesis, head.hash);
      SamePath(headers, headers', genesis, prev.hash);
      HeadsKeys(heads, stored, size, p);
      headers, canon := headers', canon';
      if head.parent != prev.hash {
        var h := FindCommonAncestor(headers, genesis, prev, head);
        if h.Some? {
          Rollback(h.value.number);
          RolledBack(old(heads), old(stored), heads, stored, known, size, p, q, h.value.number);
        }
      } else {
        OneMore(headers, genesis, prev, head, heads, stored, known, size);
      }
      prev := head;
      ghost var before := known;
      NewHead(head.number);
      PathEnds(headers, genesis, head.hash);
      KnownFits(head.number, confirms, size, before, known);
    }

    function SectionHead(section: nat): Hash
      reads `heads
    {
      if section in heads then heads[section] else 0
    }

    /** What becomes of the chain, and the indexer is told, between two steps of one who does not hold the lock. */
    method Happen(events: seq<Event>)
      requires Valid() && Story(headers, genesis, events)
      modifies `headers, `canon, `prev, `heads, `count, `stored, `known
      ensures Valid() && headers == After(old(headers), events) && Grows(old(headers), headers)
      ensures stored <= old(stored) && heads == Restrict(old(heads), stored)
      ensures events == [] ==> prev == old(prev) && canon == old(canon) && stored == old(stored) && known == old(known)
                               && heads == old(heads)
    {
      hide Closed, PathTo, IndexedBy, HeadsOk, Fit, Rewound, Confirmed, Grows, Restrict;
      HeadsKeys(heads, stored, size, Chain());
      RestrictAll(heads, stored);
      GrowsNot(headers);
      assert events[..0] == [] && events[0..] == events;
      for i := 0 to |events|
        invariant Valid() && headers == After(old(headers), events[..i]) && Grows(old(headers), headers)
        invariant Story(headers, genesis, events[i..])
        invariant stored <= old(stored) && heads == Restrict(old(heads), stored)
        invariant i == 0 ==> prev == old(prev) && canon == old(canon) && stored == old(stored) && known == old(known)
                             && heads == old(heads)
      {
        var e := events[i];
        assert events[i..][0] == e && events[i..][1..] == events[i + 1..];
        assert events[..i + 1][..i] == events[..i];
        ghost var h, n := headers, stored;
        StoryParts(headers, genesis, events[i..]);
        ChainEvent(e.headers, e.canon, e.head);
        GrowsOn(old(headers), h, headers);
        RestrictOn(old(heads), n, stored);
      }
      assert events[..|events|] == events;
    }

    /** Reads the canonical header of a number.  Above the head there may be an old one. */
    method Read(number: nat) returns (header: Option<Header>)
      requires ChainOk()
      ensures header.Some? ==> header.value.hash in headers && headers[header.value.hash] == header.value
                               && header.value.number == number
      ensures number < |Chain()| ==>
                && header.Some? && header.value.hash == Chain()[number]
                && header.value.parent == if number == 0 then 0 else Chain()[number - 1]
    {
      hide PathTo, IndexedBy;
      PathEnds(headers, genesis, prev.hash);
      if number <= prev.number {
        ReadAt(headers, canon, genesis, prev, number);
      }
      var hash := CanonicalHash(canon, number);
      if hash == 0 {
        return None;
      }
      header := GetHeader(headers, hash, number);
      if header.Some? {
        AtHeader(headers, genesis, hash);
      }
    }

    /** Reads the blocks of a section off the canonical chain, each linked to the one before.  The backend, which is
        given them one by one, may fail to start or to finish, and before each of them the chain may change.  What has
        been read when this succeeds is a run of headers on from the section before, and that of the chain as it is
        at the end if that reaches so far. */
    method ProcessSection(section: nat, lastHead: Hash, resetFails: bool, commitFails: bool, turns: seq<seq<Event>>)
      returns (ok: bool, newHead: Hash, processed: seq<Hash>, seen: nat)
      requires Valid() && section == stored && Fit(section + 1, size, |Chain()|) && Told(headers, genesis, turns)
      requires lastHead == if section == 0 then 0 else SectionHead(section - 1)
      modifies `headers, `canon, `prev, `heads, `count, `stored, `known
      ensures Valid() && Grows(old(headers), headers) && (ok ==> !resetFails && !commitFails)
      ensures ok ==> Linking(headers, genesis, section * size, (section + 1) * size, lastHead, newHead, processed)
      ensures ok && 0 <= Last(size, section) < |Chain()| ==> newHead == Chain()[Last(size, section)]
      ensures stored <= old(stored) && heads == Restrict(old(heads), stored)
      ensures seen <= |turns| && Told(headers, genesis, turns[seen..])
      ensures turns == [] ==>
                && headers == old(headers) && canon == old(canon) && prev == old(prev) && known == old(known)
                && ok == (!resetFails && !commitFails)
                && if resetFails then stored == 0 else stored == old(stored) && heads == old(heads)
    {
      hide PathTo, Closed, IndexedBy, HeadsOk, Fit, Linking, Last, Story, After, Grows, Restrict, Told;
      ghost var p, h0 := Chain(), headers;
      HeadsKeys(heads, stored, size, p);
      RestrictAll(heads, stored);
      GrowsNot(headers);
      ok, newHead, processed, seen := false, 0, [], 0;
      assert turns[0..] == turns;
      if resetFails {
        SetValidSections(0);
        NoHeads(heads, size, p);
        RestrictNone(old(heads));
        return;
      }
      SectionRange(section, size, |p|);
      SectionStarts(section, size, heads, stored, p);
      var last, from, number := lastHead, section * size, section * size;
      while number < (section + 1) * size
        invariant from <= number <= (section + 1) * size && Valid() && Grows(h0, headers)
        invariant seen <= |turns| && Told(headers, genesis, turns[seen..])
        invariant if number == from then last == lastHead && processed == []
                  else Linking(headers, genesis, from, number, lastHead, last, processed)
        invariant from < number <= |Chain()| ==> last == Chain()[number - 1]
        invariant stored <= old(stored) && heads == Restrict(old(heads), stored)
        invariant turns == [] ==>
                    && headers == h0 && canon == old(canon) && prev == old(prev) && known == old(known)
                    && stored == old(stored) && heads == old(heads) && last == if number == 0 then 0 else p[number - 1]
      {
        ghost var h, n := headers, stored;
        if seen < |turns| {
          Telling(headers, genesis, turns, seen);
          Happen(turns[seen]);
          seen := seen + 1;
          GrowsOn(h0, h, headers);
          RestrictOn(old(heads), n, stored);
          if number > from {
            LinkingGrown(h, headers, genesis, from, number, lastHead, last, processed);
          }
        }
        var header := Read(number);
        if header == None || header.value.parent != last {
          return;
        }
        LinkingNext(headers, genesis, from, number, lastHead, last, processed, header.value);
        processed := processed + [header.value.hash];
        last := header.value.hash;
        number := number + 1;
      }
      ok, newHead := !commitFails, last;
    }

    /** The start of a round: notes the next section and the head before it, and reads the section. */
    method StartRound(resetFails: bool, commitFails: bool)
      returns (section: nat, oldHead: Hash, ok: bool, newHead: Hash)
      requires Valid() && known > stored
      modifies `headers, `canon, `prev, `heads, `count, `stored, `known
      ensures headers == old(headers) && canon == old(canon) && prev == old(prev) && known == old(known)
      ensures Valid() && ok == (!resetFails && !commitFails) && section == old(stored) < MAX_UINT64
      ensures Fit(section + 1, size, |Chain()|) && 0 <= Last(size, section) < |Chain()|
      ensures if section > 0 then section - 1 in old(heads) && oldHead == old(heads)[section - 1] != 0 else oldHead == 0
      ensures ok ==> newHead == Chain()[Last(size, section)]
      ensures if resetFails then stored == 0 else stored == old(stored) && heads == old(heads) && count == old(count)
      ensures forall s | s in heads :: s in old(heads) && heads[s] == old(heads)[s]
    {
      hide PathTo, Closed, IndexedBy, HeadsOk, Fit;
      ghost var p := Chain();
      HeadsKeys(heads, stored, size, p);
      section := stored;
      FitLess(section + 1, known, size, |p|);
      SectionRange(section, size, |p|);
      HeadBefore(headers, canon, genesis, prev, heads, stored, size);
      oldHead := if section > 0 then SectionHead(section - 1) else 0;
      var processed, seen;
      ok, newHead, processed, seen := ProcessSection(section, oldHead, resetFails, commitFails, []);
      HeadsKeys(heads, stored, size, p);
    }

    /** The end of a round, under the lock again: the section is stored if it could be read and the head of the
        section before is still what it was. */
    method Commit(section: nat, oldHead: Hash, ok: bool, newHead: Hash)
      requires (forall s: nat :: s in heads <==> s < stored) && stored <= section < MAX_UINT64
      requires section > 0 ==> oldHead != 0
      requires section == 0 ==> oldHead == 0
      modifies `heads, `count, `stored, `known
      ensures var commits := ok && old(stored) == section && (section > 0 ==> oldHead == old(heads)[section - 1]);
              if commits then
                heads == old(heads)[section := newHead] && stored == count == section + 1 && known == old(known)
              else heads == old(heads) && stored == old(stored) && count == old(count) && known == stored
    {
      if ok && oldHead == SectionHead(Pred(section)) {
        heads := heads[section := newHead];
        SetValidSections(section + 1);
        assert heads == old(heads)[section := newHead];
      } else {
        known := stored;
      }
    }

    /** One round of the update loop: index the next section if it is known to be complete. */
    method Update(resetFails: bool, commitFails: bool)
      requires Valid()
      modifies `headers, `canon, `prev, `heads, `count, `stored, `known
      ensures Valid() && headers == old(headers) && prev == old(prev)
      ensures old(known) <= old(stored) ==> heads == old(heads) && stored == old(stored) && known == old(known)
      ensures old(known) > old(stored) && !resetFails && !commitFails ==>
                stored == old(stored) + 1 && known == old(known)
      ensures old(known) > old(stored) && (resetFails || commitFails) ==> known == stored
      ensures forall s | s in old(heads) && s in heads :: heads[s] == old(heads)[s]
    {
      hide PathTo, Closed, IndexedBy, HeadsOk, Fit, Last;
      ghost var p := Chain();
      HeadsKeys(heads, stored, size, p);
      if known > stored {
        var section, oldHead, ok, newHead := StartRound(resetFails, commitFails);
        HeadsKeys(heads, stored, size, p);
        if ok {
          HeadsMore(heads, stored, size, p, newHead);
        }
        Commit(section, oldHead, ok, newHead);
        FitLess(stored, section + 1, size, |p|);
      }
    }

    /** The same round with a new head arriving while the section is read, without the lock.  The heads stored are
        those of the new chain exactly if the fork point lies below the section, which the check detects, or not
        below its last block. */
    method UpdateAcross(headers': Tree, canon': map<nat, Hash>, head: Header)
      requires Valid() && known > stored
      requires Closed(headers', genesis) && head.hash in headers' && headers'[head.hash] == head
      requires forall h | h in headers :: h in headers' && headers'[h] == headers[h]
      requires IndexedBy(canon', PathTo(headers', genesis, head.hash), head.number)
      modifies `headers, `canon, `prev, `heads, `count, `stored, `known
      ensures ChainOk() && headers == headers' && prev == head && count == stored
      ensures head.parent == old(prev).hash ==> HeadsOk(heads, stored, size, Chain()) && stored == old(stored) + 1
      ensures head.parent != old(prev).hash ==> Raced(old(Chain()), Chain(), size, old(stored), heads, stored)
    {
      hide PathTo, Closed, IndexedBy, HeadsOk, Fit, Rewound, Last, ChainOk, Raced, Confirmed;
      ghost var p, q := Chain(), PathTo(headers', genesis, head.hash);
      ghost var was := heads;
      var section, oldHead, ok, newHead := StartRound(false, false);
      ChainParts();
      SamePath(headers, headers', genesis, prev.hash);
      HeadsKeys(heads, stored, size, p);
      ghost var isChild := head.parent == prev.hash;
      ChainEvent(headers', canon', head);
      HeadsKeys(heads, stored, size, q);
      ghost var mid, knows := stored, known;
      assert mid == section ==> heads == was;
      Commit(section, oldHead, ok, newHead);
      if isChild {
        HeadExtended(headers', genesis, old(prev), head, was, section, size, p);
      } else {
        RaceEnds(p, q, was, section, size, old(known), confirms, head.number, mid, knows, heads, stored);
      }
    }

    /** The same round with any changes of the chain before each read, and between the last one and the commit.  What
        is stored is in any case a section of headers linked to the one before.  The heads stored are those of the
        chain at the end exactly if the section is not stored or its last block is still what it was when read. */
    method UpdateThrough(turns: seq<seq<Event>>, commitFails: bool)
      returns (section: nat, processed: seq<Hash>, ghost read: Path)
      requires Valid() && known > stored && Told(headers, genesis, turns)
      modifies `headers, `canon, `prev, `heads, `count, `stored, `known
      ensures size > 0 && ChainOk() && count == stored <= section + 1 && section == old(stored)
      ensures forall s: nat :: s in heads <==> s < stored
      ensures HeadsOk(heads, stored, size, Chain()) <==>
                stored <= section
                || (0 <= Last(size, section) < |Chain()| && heads[section] == Chain()[Last(size, section)])
      ensures stored == section + 1 ==>
                && !commitFails
                && Linking(headers, genesis, section * size, (section + 1) * size,
                           if section == 0 then 0 else heads[section - 1], heads[section], processed)
                && (0 <= Last(size, section) < |read| ==> heads[section] == read[Last(size, section)])
    {
      hide PathTo, Closed, IndexedBy, HeadsOk, Fit, Linking, Last, Story, After, Grows, Restrict, Told;
      ghost var p := Chain();
      HeadsKeys(heads, stored, size, p);
      section := stored;
      FitLess(section + 1, known, size, |p|);
      SectionRange(section, size, |p|);
      HeadBefore(headers, canon, genesis, prev, heads, stored, size);
      var oldHead := if section > 0 then SectionHead(section - 1) else 0;
      var ok, newHead, seen;
      ok, newHead, processed, seen := ProcessSection(section, oldHead, false, commitFails, turns);
      read := Chain();
      ghost var h := headers;
      HappenAll(turns, seen);
      if ok {
        LinkingGrown(h, headers, genesis, section * size, (section + 1) * size, oldHead, newHead, processed);
      }
      HeadsKeys(heads, stored, size, Chain());
      HeadsMoreIff(heads, stored, size, Chain(), newHead);
      Commit(section, oldHead, ok, newHead);
    }

    method HappenAll(turns: seq<seq<Event>>, seen: nat)
      requires Valid() && seen <= |turns| && Told(headers, genesis, turns[seen..])
      modifies `headers, `canon, `prev, `heads, `count, `stored, `known
      ensures Valid() && Grows(old(headers), headers) && stored <= old(stored)
    {
      hide PathTo, Closed, IndexedBy, HeadsOk, Fit, Last, Story, After, Grows, Restrict, Told;
      GrowsNot(headers);
      for i := seen to |turns|
        invariant Valid() && Grows(old(headers), headers) && stored <= old(stored) && Told(headers, genesis, turns[i..])
      {
        ghost var h := headers;
        Telling(headers, genesis, turns, i);
        Happen(turns[i]);
        GrowsOn(old(headers), h, headers);
      }
    }

    lemma ChainParts()
      requires ChainOk()
      ensures Closed(headers, genesis) && prev.hash in headers && headers[prev.hash] == prev
      ensures IndexedBy(canon, PathTo(headers, genesis, prev.hash), prev.number)
      ensures Chain() == PathTo(headers, genesis, prev.hash)
    {}
  }

  /** The head of the section before the next one is a hash. */
  lemma HeadBefore(headers: Tree, canon: map<nat, Hash>, genesis: Hash, prev: Header, heads: map<nat, Hash>,
                   stored: nat, size: nat)
    requires Closed(headers, genesis) && prev.hash in headers && headers[prev.hash] == prev && size > 0
    requires IndexedBy(canon, PathTo(headers, genesis, prev.hash), prev.number)
    requires HeadsOk(heads, stored, size, PathTo(headers, genesis, prev.hash))
    requires Fit(stored + 1, size, |PathTo(headers, genesis, prev.hash)|)
    ensures stored < MAX_UINT64 && (stored > 0 ==> stored - 1 in heads && heads[stored - 1] != 0)
  {
    hide PathTo, Closed, Last, IndexedBy;
    AtHead(headers, genesis, prev);
    assert (stored + 1) * size >= stored + 1;
    if stored > 0 {
      ReadAt(headers, canon, genesis, prev, Last(size, stored - 1));
    }
  }

  lemma AtHead(headers: Tree, genesis: Hash, prev: Header)
    requires Closed(headers, genesis) && prev.hash in headers && headers[prev.hash] == prev
    ensures |PathTo(headers, genesis, prev.hash)| == prev.number + 1 <= MAX_UINT64
  {
    AtHeader(headers, genesis, prev.hash);
  }

  /** A section read before the chain was extended is right after it. */
  lemma HeadExtended(headers: Tree, genesis: Hash, prev: Header, head: Header, heads: map<nat, Hash>, stored: nat,
                 size: nat, p: Path)
    requires Closed(headers, genesis) && prev.hash in headers && headers[prev.hash] == prev && head.hash in headers
             && headers[head.hash] == head && head.parent == prev.hash && p == PathTo(headers, genesis, prev.hash)
    requires HeadsOk(heads, stored, size, p) && 0 <= Last(size, stored) < |p|
    ensures HeadsOk(heads[stored := p[Last(size, stored)]], stored + 1, size, PathTo(headers, genesis, head.hash))
  {
    AtHeader(headers, genesis, prev.hash);
    AtHeader(headers, genesis, head.hash);
    assert PathTo(headers, genesis, head.hash) == p + [head.hash];
  }

  /** The heads stored when the chain goes from one path to another while a section is read: right exactly if the
      fork point is below the section, and then the section is not stored, or not below its last block. */
  ghost predicate Raced(p: Path, q: Path, size: nat, section: nat, heads: map<nat, Hash>, stored: nat)
    requires size > 0
  {
    exists m: nat ::
      && ForkAt(p, q, m) && stored == (if m / size < section then m / size else section + 1)
      && (HeadsOk(heads, stored, size, q) <==> m / size < section || Last(size, section) <= m)
  }

  lemma RaceEnds(p: Path, q: Path, was: map<nat, Hash>, section: nat, size: nat, known: nat, confirms: nat, head: nat,
                 mid: nat, known': nat, heads: map<nat, Hash>, stored: nat)
    requires size > 0 && HeadsOk(was, section, size, p) && 0 <= Last(size, section) < |p|
    requires Rewound(p, q, section, known, size, confirms, head, mid, known')
    requires if mid == section then stored == section + 1 && heads == was[section := p[Last(size, section)]]
             else stored == mid && HeadsOk(heads, stored, size, q)
    ensures Raced(p, q, size, section, heads, stored)
  {
    hide HeadsOk, Last, ForkAt, Confirmed;
    var m: nat :| ForkAt(p, q, m) && mid == Min(section, m / size)
                  && known' == Confirmed(Min(known, m / size), head, size, confirms);
    if mid == section {
      LateCommit(was, section, size, p, q, m);
    }
  }

  /** It does go wrong: with sections of two blocks, another block of number one that arrives while section zero
      is read leaves the head of the abandoned branch stored. */
  method RaceLost() returns (c: ChainIndexer)
    ensures fresh(c) && c.ChainOk() && c.stored == 1 && !HeadsOk(c.heads, c.stored, c.size, c.Chain())
  {
    hide Fit, Rewound;
    var g, x, y := Header(1, 0, 0, 1), Header(2, 1, 1, 1), Header(3, 1, 1, 1);
    var before, after := map[1 := g, 2 := x], map[1 := g, 2 := x, 3 := y];
    Siblings(before, after, g, x, y);
    c := new ChainIndexer(g, 2, 0);
    c.ChainEvent(before, map[0 := 1, 1 := 2], x);
    ghost var p := c.Chain();
    c.UpdateAcross(after, map[0 := 1, 1 := 3], y);
    ForkedAtOnce(p, c.Chain(), c.heads, c.stored);
  }

  lemma Siblings(before: Tree, after: Tree, g: Header, x: Header, y: Header)
    requires g == Header(1, 0, 0, 1) && x == Header(2, 1, 1, 1) && y == Header(3, 1, 1, 1)
    requires before == map[1 := g, 2 := x] && after == map[1 := g, 2 := x, 3 := y]
    ensures Closed(before, 1) && Closed(after, 1)
    ensures PathTo(before, 1, 2) == [1, 2] && PathTo(after, 1, 3) == [1, 3]
  {
    assert PathTo(before, 1, 1) == [1] && PathTo(after, 1, 1) == [1];
  }

  lemma ForkedAtOnce(p: Path, q: Path, heads: map<nat, Hash>, stored: nat)
    requires p == [1, 2] && q == [1, 3] && Raced(p, q, 2, 0, heads, stored)
    ensures stored == 1 && !HeadsOk(heads, stored, 2, q)
  {
    hide HeadsOk;
    forall m: nat | ForkAt(p, q, m) ensures m == 0 {
      assert p[..m + 1][m] == q[..m + 1][m];
    }
  }

  lemma NoHeads(heads: map<nat, Hash>, size: nat, p: Path)
    requires heads == map[]
    ensures HeadsOk(heads, 0, size, p)
  {}

  lemma FitLess(a: nat, b: nat, size: nat, blocks: nat)
    requires a <= b && Fit(b, size, blocks)
    ensures Fit(a, size, blocks)
  {
    assert a * size <= b * size;
  }

  lemma SectionRange(section: nat, size: nat, blocks: nat)
    requires Fit(section + 1, size, blocks) && size > 0
    ensures 0 <= section * size < (section + 1) * size <= blocks && Last(size, section) == (section + 1) * size - 1
  {
    assert (section + 1) * size == section * size + size;
  }

  /** What a section's first block is to be linked to. */
  lemma SectionStarts(section: nat, size: nat, heads: map<nat, Hash>, stored: nat, p: Path)
    requires HeadsOk(heads, stored, size, p) && section == stored && size > 0 && section * size < |p|
    ensures section == 0 ==> section * size == 0
    ensures section > 0 ==> section * size > 0 && section - 1 in heads && heads[section - 1] == p[section * size - 1]
  {}

  lemma ReadAt(headers: Tree, canon: map<nat, Hash>, genesis: Hash, prev: Header, n: nat)
    requires Closed(headers, genesis) && prev.hash in headers && headers[prev.hash] == prev && n <= prev.number
    requires IndexedBy(canon, PathTo(headers, genesis, prev.hash), prev.number)
    ensures var p := PathTo(headers, genesis, prev.hash);
            && |p| == prev.number + 1 && p[n] != 0 && CanonicalHash(canon, n) == p[n]
            && GetHeader(headers, p[n], n).Some? && GetHeader(headers, p[n], n).value.hash == p[n]
            && GetHeader(headers, p[n], n).value.parent == (if n == 0 then 0 else p[n - 1])
  {
    var p := PathTo(headers, genesis, prev.hash);
    PathPrefix(headers, genesis, prev.hash, n);
    AtHeader(headers, genesis, p[n]);
    if n > 0 {
      PathLink(headers, genesis, prev.hash, n);
    }
  }

  lemma HeadsMore(heads: map<nat, Hash>, stored: nat, size: nat, p: Path, h: Hash)
    requires HeadsOk(heads, stored, size, p) && 0 <= Last(size, stored) < |p| && h == p[Last(size, stored)]
    ensures HeadsOk(heads[stored := h], stored + 1, size, p)
  {}

  /** One more head is right exactly if it is the chain's. */
  lemma HeadsMoreIff(heads: map<nat, Hash>, stored: nat, size: nat, p: Path, h: Hash)
    requires HeadsOk(heads, stored, size, p) && size > 0
    ensures HeadsOk(heads[stored := h], stored + 1, size, p) <==>
              0 <= Last(size, stored) < |p| && h == p[Last(size, stored)]
  {
    assert (stored + 1) * size > 0;
    if Last(size, stored) < |p| && h == p[Last(size, stored)] {
      HeadsMore(heads, stored, size, p, h);
    }
  }

  /** A section that was read before a reorganisation and is committed after it: where the fork point lies at or
      above the section's start the check of the section before passes, but what is stored is right exactly if
      the fork point is not below the section's last block. */
  lemma LateCommit(heads: map<nat, Hash>, section: nat, size: nat, p: Path, q: Path, m: nat)
    requires HeadsOk(heads, section, size, p) && size > 0 && ForkAt(p, q, m) && section <= m / size
    requires 0 <= Last(size, section) < |p|
    ensures HeadsOk(heads, section, size, q)
    ensures HeadsOk(heads[section := p[Last(size, section)]], section + 1, size, q) <==> Last(size, section) <= m
  {
    HeadsAgree(heads, section, size, p, q, m);
    var last := Last(size, section);
    if last <= m {
      assert p[..m + 1][last] == q[..m + 1][last];
      HeadsMore(heads, section, size, q, p[last]);
    } else if last < |q| {
      assert p[last] != q[last];
    }
  }

  /** The first block of a section is the child of the head of the section before. */
  lemma SectionsLinked(headers: Tree, genesis: Hash, prev: Hash, heads: map<nat, Hash>, stored: nat, size: nat, s: nat)
    requires Closed(headers, genesis) && prev in headers && size > 0 && s + 1 < stored
    requires HeadsOk(heads, stored, size, PathTo(headers, genesis, prev))
    ensures var p := PathTo(headers, genesis, prev);
            && 0 < (s + 1) * size < |p| && p[(s + 1) * size] in headers && headers[p[(s + 1) * size]].parent == heads[s]
  {
    var p := PathTo(headers, genesis, prev);
    assert Last(size, s) == (s + 1) * size - 1;
    assert (s + 2) * size == (s + 1) * size + size;
    assert 0 <= Last(size, s + 1) < |p|;
    PathLink(headers, genesis, prev, (s + 1) * size);
  }

  lemma HeadsKeys(heads: map<nat, Hash>, stored: nat, size: nat, path: Path)
    requires HeadsOk(heads, stored, size, path)
    ensures forall s: nat :: s in heads <==> s < stored
  {}

  lemma {:induction false} SamePath(headers: Tree, headers': Tree, genesis: Hash, h: Hash)
    requires Closed(headers, genesis) && Closed(headers', genesis) && h in headers
    requires forall k | k in headers :: k in headers' && headers'[k] == headers[k]
    ensures PathTo(headers', genesis, h) == PathTo(headers, genesis, h)
    decreases headers[h].number
  {
    AtHeader(headers, genesis, h);
    if h != genesis {
      SamePath(headers, headers', genesis, headers[h].parent);
    }
  }

  lemma RolledBack(was: map<nat, Hash>, before: nat, heads: map<nat, Hash>, stored: nat, known: nat, size: nat,
                   p: Path, q: Path, m: nat)
    requires HeadsOk(was, before, size, p) && ForkAt(p, q, m) && size > 0 && stored <= before && stored <= m / size
             && known <= m / size
    requires heads == map s | s in was && s < stored :: was[s]
    ensures HeadsOk(heads, stored, size, q) && Fit(known, size, |q|)
  {
    assert HeadsOk(heads, stored, size, p);
    HeadsAgree(heads, stored, size, p, q, m);
    Quotient(m, size);
    assert known * size <= (m / size) * size;
  }

  lemma OneMore(headers: Tree, genesis: Hash, prev: Header, head: Header, heads: map<nat, Hash>, stored: nat,
                known: nat, size: nat)
    requires Closed(headers, genesis) && prev.hash in headers && headers[prev.hash] == prev && head.hash in headers
             && headers[head.hash] == head
    requires head.parent == prev.hash && HeadsOk(heads, stored, size, PathTo(headers, genesis, prev.hash))
    requires Fit(known, size, |PathTo(headers, genesis, prev.hash)|)
    ensures HeadsOk(heads, stored, size, PathTo(headers, genesis, head.hash))
            && Fit(known, size, |PathTo(headers, genesis, head.hash)|)
  {
    AtHeader(headers, genesis, prev.hash);
    AtHeader(headers, genesis, head.hash);
    assert PathTo(headers, genesis, head.hash) == PathTo(headers, genesis, prev.hash) + [head.hash];
  }

  lemma KnownFits(head: nat, confirms: nat, size: nat, before: nat, known: nat)
    requires size > 0 && Fit(before, size, head + 1)
    requires known == Confirmed(before, head, size, confirms)
    ensures Fit(known, size, head + 1)
  {}
}
