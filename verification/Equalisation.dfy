/** The arithmetic of the equalisation: lengths of pending lists as offenders are cut. */
module Equalisation {
  import opened Transactions

  type Lens = map<Address, nat>

  ghost predicate Distinct(s: seq<Address>) {
    forall i, j | 0 <= i < j < |s| :: s[i] != s[j]
  }

  /** One cut for each account of the group. */
  ghost predicate Round(d: Lens, d': Lens, group: seq<Address>) {
    && d.Keys == d'.Keys
    && (forall a | a in group :: a in d)
    && (forall a | a in d :: d'[a] + (if a in group then 1 else 0) == d[a])
  }

  /** `d` came from `d0` by cutting offenders only, none below the guaranteed slots; the offenders and the
      spammers left are the remote accounts that started above the slots. */
  ghost predicate Cutting(d0: Lens, d: Lens, offenders: seq<Address>, spammers: set<Address>, locals: set<Address>,
                          slots: nat) {
    && d.Keys == d0.Keys
    && (forall a | a in d0 && a !in offenders :: d[a] == d0[a])
    && (forall a | a in offenders ::
          a in d0 && a !in locals && a !in spammers && slots <= d[a] <= d0[a] && slots < d0[a])
    && (forall a | a in spammers :: a in d0 && a !in locals && slots < d0[a])
    && (forall a | a in d0 && a !in locals && slots < d0[a] :: a in offenders || a in spammers)
  }

  /** No spammer left is longer than an offender. */
  ghost predicate Ranked(d0: Lens, d: Lens, offenders: seq<Address>, spammers: set<Address>) {
    forall s, o | s in spammers && o in offenders && s in d0 && o in d :: d0[s] <= d[o]
  }

  /** All of these accounts have lists of the same length. */
  ghost predicate Level(d: Lens, s: seq<Address>) {
    forall a, b | a in s && b in s && a in d && b in d :: d[a] == d[b]
  }

  /** The offenders but the last are level; the last one is no longer than they are. */
  ghost predicate Above(d: Lens, group: seq<Address>, last: Address) {
    Level(d, group) && last in d && forall a | a in group && a in d :: d[last] <= d[a]
  }

  /** The picture while a group of level offenders is cut down to the last one, which is still uncut. */
  ghost predicate Phase(d0: Lens, d: Lens, group: seq<Address>, last: Address, spammers: set<Address>,
                        locals: set<Address>, slots: nat) {
    && Cutting(d0, d, group + [last], spammers, locals, slots)
    && Ranked(d0, d, group + [last], spammers)
    && Above(d, group, last)
    && last !in group && last in d0 && d[last] == d0[last]
  }

  /** The picture between phases: all offenders level. */
  ghost predicate Settled(d0: Lens, d: Lens, offenders: seq<Address>, spammers: set<Address>, locals: set<Address>,
                          slots: nat) {
    && Cutting(d0, d, offenders, spammers, locals, slots)
    && Ranked(d0, d, offenders, spammers)
    && Level(d, offenders)
  }

  /** No uncut remote account is longer than a cut one. */
  ghost predicate Fair(d0: Lens, d: Lens, locals: set<Address>) {
    forall u, c | u in d0 && c in d0 && u in d && c in d && u !in locals && c !in locals && d[u] == d0[u]
        && d[c] < d0[c] :: d[u] <= d[c]
  }

  lemma SettledIsFair(d0: Lens, d: Lens, offenders: seq<Address>, spammers: set<Address>, locals: set<Address>,
                      slots: nat)
    requires Settled(d0, d, offenders, spammers, locals, slots)
    ensures Fair(d0, d, locals) && Cutting(d0, d, offenders, spammers, locals, slots)
  {}

  lemma PhaseIsFair(d0: Lens, d: Lens, group: seq<Address>, last: Address, spammers: set<Address>,
                    locals: set<Address>, slots: nat)
    requires Phase(d0, d, group, last, spammers, locals, slots)
    ensures Fair(d0, d, locals) && Cutting(d0, d, group + [last], spammers, locals, slots)
  {}

  lemma SettledFacts(d0: Lens, d: Lens, offenders: seq<Address>, spammers: set<Address>, locals: set<Address>,
                     slots: nat)
    requires Settled(d0, d, offenders, spammers, locals, slots)
    ensures d.Keys == d0.Keys
    ensures forall a | a in offenders :: a in d && a !in locals && slots <= d[a]
    ensures forall a | a in spammers :: a in d && a !in offenders
    ensures forall a, b | a in offenders && b in offenders :: d[a] == d[b]
    ensures spammers == {} && (forall a | a in offenders :: d[a] <= slots) ==> forall a | a in d
            && a !in locals :: d[a] <= slots
  {}

  /** What a cut leaves, whether the offenders are level or not. */
  lemma CuttingFacts(d0: Lens, d: Lens, offenders: seq<Address>, spammers: set<Address>, locals: set<Address>,
                     slots: nat)
    requires Cutting(d0, d, offenders, spammers, locals, slots)
    ensures forall a | a in offenders :: a !in locals
    ensures forall a | a in d && d[a] < d0[a] :: slots <= d[a]
  {}

  lemma Starts(d: Lens, spammers: set<Address>, locals: set<Address>, slots: nat)
    requires spammers == set a | a in d && a !in locals && slots < d[a]
    ensures Settled(d, d, [], spammers, locals, slots)
  {}

  /** The largest spammer joins level offenders. */
  lemma Joins(d0: Lens, d: Lens, group: seq<Address>, last: Address, spammers: set<Address>, locals: set<Address>,
              slots: nat)
    requires Settled(d0, d, group, spammers, locals, slots)
    requires last in spammers && forall s | s in spammers && s in d :: d[s] <= d[last]
    ensures Phase(d0, d, group, last, spammers - {last}, locals, slots)
  {}

  /** A round over a part of the offenders, all above the slots. */
  lemma RoundCuts(d0: Lens, d: Lens, d': Lens, offenders: seq<Address>, group: seq<Address>, spammers: set<Address>,
                  locals: set<Address>, slots: nat)
    requires Cutting(d0, d, offenders, spammers, locals, slots) && Round(d, d', group)
    requires forall a | a in group :: a in offenders && slots < d[a]
    ensures Cutting(d0, d', offenders, spammers, locals, slots)
  {}

  /** A round over the group while it is longer than the last offender. */
  lemma GroupRound(d0: Lens, d: Lens, d': Lens, group: seq<Address>, last: Address, spammers: set<Address>,
                   locals: set<Address>, slots: nat)
    requires Phase(d0, d, group, last, spammers, locals, slots)
    requires Round(d, d', group) && forall a | a in group :: d[last] < d[a]
    ensures Phase(d0, d', group, last, spammers, locals, slots)
  {
    assert last in group + [last] && forall a | a in group :: a in group + [last];
    RoundCuts(d0, d, d', group + [last], group, spammers, locals, slots);
    forall s, o | s in spammers && o in group + [last] && s in d0 && o in d' ensures d0[s] <= d'[o] {
      assert d0[s] <= d[last];
    }
  }

  /** One member of a level group tells about all. */
  lemma GroupFacts(d0: Lens, d: Lens, group: seq<Address>, last: Address, spammers: set<Address>,
                   locals: set<Address>, slots: nat)
    requires Phase(d0, d, group, last, spammers, locals, slots)
    ensures forall a | a in group :: a in d && a in group + [last]
    ensures last in d && slots <= d[last]
    ensures forall a, b | a in group && b in group :: d[a] == d[b]
  {}

  /** Group and last offender have met. */
  lemma Met(d0: Lens, d: Lens, group: seq<Address>, last: Address, spammers: set<Address>, locals: set<Address>,
            slots: nat)
    requires Phase(d0, d, group, last, spammers, locals, slots)
    requires forall a | a in group && a in d :: d[a] <= d[last]
    ensures Settled(d0, d, group + [last], spammers, locals, slots)
  {}

  /** A round over all offenders, when they are level and no spammer is left. */
  lemma FullRound(d0: Lens, d: Lens, d': Lens, offenders: seq<Address>, locals: set<Address>, slots: nat)
    requires Settled(d0, d, offenders, {}, locals, slots) && Round(d, d', offenders)
    requires forall a | a in offenders :: slots < d[a]
    ensures Settled(d0, d', offenders, {}, locals, slots)
  {}
}
