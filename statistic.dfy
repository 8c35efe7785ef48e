/**
 * `new_statistics`: group the bets of a match by candidate, sum each group, and order the groups
 * by amount, largest first. The floating-point rate is left to the caller: each entry carries the
 * bet count it is computed from.
 */
module Statistic {
  import opened Kernel

  /** One candidate's pool; `count` is the number of bets, from which the rate is derived. */
  datatype Statistic = Statistic(candidate: Candidate, amount: int, count: nat, bets: seq<Bet>)

  /** A candidate with the bets gathered for it so far. */
  datatype Draft = Draft(candidate: Candidate, bets: seq<Bet>)

  function Ids(cs: seq<Candidate>): set<Id> {
    set i | 0 <= i < |cs| :: cs[i].id
  }

  /** The candidate a map built from `cs` keeps under `id`: the last one inserted. */
  function LastWith(cs: seq<Candidate>, id: Id): (c: Candidate)
    requires id in Ids(cs)
    ensures c.id == id && c in cs
    decreases |cs|
  {
    var n := |cs| - 1;
    if cs[n].id == id then cs[n]
    else
      assert id in Ids(cs[..n]) by {
        var i :| 0 <= i < |cs| && cs[i].id == id;
        assert cs[..n][i].id == id;
      }
      LastWith(cs[..n], id)
  }

  /** The bets on candidate `id`, in input order. */
  function BetsFor(bs: seq<Bet>, id: Id): (r: seq<Bet>)
    ensures forall b :: b in r <==> b in bs && b.candidateId == id
    decreases |bs|
  {
    if |bs| == 0 then []
    else BetsFor(bs[..|bs| - 1], id) + (if bs[|bs| - 1].candidateId == id then [bs[|bs| - 1]] else [])
  }

  function Sum(bs: seq<Bet>): int
    decreases |bs|
  {
    if |bs| == 0 then 0 else Sum(bs[..|bs| - 1]) + bs[|bs| - 1].amount
  }

  /** The entry for candidate `id`: its candidate, the sum and number of its bets, and the bets. */
  function Entry(cs: seq<Candidate>, bs: seq<Bet>, id: Id): Statistic
    requires id in Ids(cs)
  {
    var own := BetsFor(bs, id);
    Statistic(LastWith(cs, id), Sum(own), |own|, own)
  }

  /** The entries for the ids in `ids`, as a set: order is not part of it. */
  function Entries(cs: seq<Candidate>, bs: seq<Bet>, ids: set<Id>): set<Statistic>
    requires ids <= Ids(cs)
  {
    set id | id in ids :: Entry(cs, bs, id)
  }

  predicate Descending(s: seq<Statistic>) {
    forall i, j :: 0 <= i < j < |s| ==> s[i].amount >= s[j].amount
  }

  lemma IdsSnoc(cs: seq<Candidate>, c: Candidate)
    ensures Ids(cs + [c]) == Ids(cs) + {c.id}
  {
    var cs' := cs + [c];
    forall x | x in Ids(cs') ensures x in Ids(cs) + {c.id} {
      var i :| 0 <= i < |cs'| && cs'[i].id == x;
      if i < |cs| { assert cs[i].id == x; }
    }
    assert cs'[|cs|].id == c.id;
    forall x | x in Ids(cs) ensures x in Ids(cs') {
      var i :| 0 <= i < |cs| && cs[i].id == x;
      assert cs'[i].id == x;
    }
  }

  /** Adding the entry of a new id to the entries gathered so far. */
  lemma EntriesAdd(cs: seq<Candidate>, bs: seq<Bet>, done: set<Id>, id: Id)
    requires done <= Ids(cs) && id in Ids(cs) && id !in done
    ensures multiset(Entries(cs, bs, done + {id})) == multiset(Entries(cs, bs, done)) + multiset{Entry(cs, bs, id)}
  {
    var e := Entry(cs, bs, id);
    assert e !in Entries(cs, bs, done);
    assert Entries(cs, bs, done + {id}) == Entries(cs, bs, done) + {e};
  }

  method Swap(a: array<Statistic>, i: nat, j: nat)
    requires i < a.Length && j < a.Length
    modifies a
    ensures a[i] == old(a[j]) && a[j] == old(a[i])
    ensures forall k :: 0 <= k < a.Length && k != i && k != j ==> a[k] == old(a[k])
    ensures multiset(a[..]) == multiset(old(a[..]))
  {
    a[i], a[j] := a[j], a[i];
  }

  /** In-place insertion sort by amount, largest first. */
  method SortByAmountDesc(a: array<Statistic>)
    modifies a
    ensures Descending(a[..])
    ensures multiset(a[..]) == multiset(old(a[..]))
  {
    var i := 0;
    while i < a.Length
      invariant 0 <= i <= a.Length
      invariant forall k, l :: 0 <= k < l < i ==> a[k].amount >= a[l].amount
      invariant multiset(a[..]) == multiset(old(a[..]))
    {
      var j := i;
      while j > 0 && a[j - 1].amount < a[j].amount
        invariant 0 <= j <= i
        invariant multiset(a[..]) == multiset(old(a[..]))
        invariant forall k, l :: 0 <= k < l <= i && k != j && l != j ==> a[k].amount >= a[l].amount
        invariant forall l :: j < l <= i ==> a[j].amount > a[l].amount
      {
        Swap(a, j - 1, j);
        j := j - 1;
      }
      i := i + 1;
    }
  }

  /** The map from candidate id to an empty draft, as `collect` builds it: a later candidate replaces an earlier one. */
  method Drafts(candidates: seq<Candidate>) returns (drafts: map<Id, Draft>)
    ensures drafts.Keys == Ids(candidates)
    ensures forall id :: id in drafts ==> drafts[id] == Draft(LastWith(candidates, id), [])
  {
    drafts := map[];
    var i := 0;
    while i < |candidates|
      invariant 0 <= i <= |candidates|
      invariant drafts.Keys == Ids(candidates[..i])
      invariant forall id :: id in drafts ==> drafts[id] == Draft(LastWith(candidates[..i], id), [])
    {
      var c := candidates[i];
      assert candidates[..i + 1] == candidates[..i] + [c];
      IdsSnoc(candidates[..i], c);
      drafts := drafts[c.id := Draft(c, [])];
      i := i + 1;
    }
    assert candidates[..i] == candidates;
  }

  /** The bets loop: each bet is appended to its candidate's draft; a bet naming no candidate is dropped. */
  method GatherBets(drafts0: map<Id, Draft>, candidates: seq<Candidate>, bets: seq<Bet>) returns (drafts: map<Id, Draft>)
    requires drafts0.Keys == Ids(candidates)
    requires forall id :: id in drafts0 ==> drafts0[id] == Draft(LastWith(candidates, id), [])
    ensures drafts.Keys == Ids(candidates)
    ensures forall id :: id in drafts ==> drafts[id] == Draft(LastWith(candidates, id), BetsFor(bets, id))
  {
    drafts := drafts0;
    var j := 0;
    while j < |bets|
      invariant 0 <= j <= |bets|
      invariant drafts.Keys == Ids(candidates)
      invariant forall id :: id in drafts ==> drafts[id] == Draft(LastWith(candidates, id), BetsFor(bets[..j], id))
    {
      var b := bets[j];
      assert bets[..j + 1][..j] == bets[..j];
      if b.candidateId in drafts {
        var d := drafts[b.candidateId];
        drafts := drafts[b.candidateId := d.(bets := d.bets + [b])];
      }
      j := j + 1;
    }
    assert bets[..j] == bets;
  }

  /** The loop over the map, in an order the map chooses, turning each draft into its entry. */
  method Collect(drafts: map<Id, Draft>, candidates: seq<Candidate>, bets: seq<Bet>) returns (unsorted: seq<Statistic>)
    requires drafts.Keys == Ids(candidates)
    requires forall id :: id in drafts ==> drafts[id] == Draft(LastWith(candidates, id), BetsFor(bets, id))
    ensures multiset(unsorted) == multiset(Entries(candidates, bets, Ids(candidates)))
  {
    var remaining := drafts.Keys;
    unsorted := [];
    while remaining != {}
      invariant remaining <= drafts.Keys
      invariant multiset(unsorted) == multiset(Entries(candidates, bets, drafts.Keys - remaining))
      decreases |remaining|
    {
      var id :| id in remaining;
      var d := drafts[id];
      EntriesAdd(candidates, bets, drafts.Keys - remaining, id);
      assert drafts.Keys - (remaining - {id}) == (drafts.Keys - remaining) + {id};
      unsorted := unsorted + [Statistic(d.candidate, Sum(d.bets), |d.bets|, d.bets)];
      remaining := remaining - {id};
    }
    assert drafts.Keys - remaining == Ids(candidates);
  }

  /**
   * `new_statistics`: one entry per distinct candidate id (the last candidate given under an id
   * wins), holding exactly the bets naming it, in input order, with their sum and count; bets
   * naming no candidate are dropped; entries come largest amount first. The order among equal
   * amounts comes from the map's iteration order, which is left open.
   */
  method NewStatistics(bets: seq<Bet>, candidates: seq<Candidate>) returns (stats: seq<Statistic>)
    ensures multiset(stats) == multiset(Entries(candidates, bets, Ids(candidates)))
    ensures Descending(stats)
  {
    var drafts := Drafts(candidates);
    drafts := GatherBets(drafts, candidates, bets);
    var unsorted := Collect(drafts, candidates, bets);
    var a := new Statistic[|unsorted|](k requires 0 <= k < |unsorted| => unsorted[k]);
    assert a[..] == unsorted;
    SortByAmountDesc(a);
    stats := a[..];
  }

  // ---------------------------------------------------------------------------------------------
  // What the specification of `NewStatistics` means, entry by entry.

  lemma TwiceCounted(s: seq<Statistic>, k: nat, l: nat)
    requires k < l < |s| && s[k] == s[l]
    ensures multiset(s)[s[k]] >= 2
  {
    assert s == s[..l] + s[l..];
    assert s[k] == s[..l][k];
    assert s[l] == s[l..][0];
    assert multiset(s) == multiset(s[..l]) + multiset(s[l..]);
  }

  /** Every entry is the entry of one input candidate id, each id has an entry, and no id has two. */
  lemma StatisticsPerCandidate(stats: seq<Statistic>, bets: seq<Bet>, candidates: seq<Candidate>)
    requires multiset(stats) == multiset(Entries(candidates, bets, Ids(candidates)))
    ensures forall k :: 0 <= k < |stats| ==>
      stats[k].candidate.id in Ids(candidates) && stats[k] == Entry(candidates, bets, stats[k].candidate.id)
    ensures forall id :: id in Ids(candidates) ==> exists k :: 0 <= k < |stats| && stats[k].candidate.id == id
    ensures forall k, l :: 0 <= k < l < |stats| ==> stats[k].candidate.id != stats[l].candidate.id
  {
    var es := Entries(candidates, bets, Ids(candidates));
    forall k | 0 <= k < |stats|
      ensures stats[k].candidate.id in Ids(candidates) && stats[k] == Entry(candidates, bets, stats[k].candidate.id)
    {
      assert stats[k] in multiset(stats);
      assert stats[k] in es;
    }
    forall id | id in Ids(candidates) ensures exists k :: 0 <= k < |stats| && stats[k].candidate.id == id {
      var e := Entry(candidates, bets, id);
      assert e in es;
      assert e in multiset(stats);
      var k :| 0 <= k < |stats| && stats[k] == e;
    }
    forall k, l | 0 <= k < l < |stats| ensures stats[k].candidate.id != stats[l].candidate.id {
      if stats[k].candidate.id == stats[l].candidate.id {
        TwiceCounted(stats, k, l);
      }
    }
  }

  /** An entry's amount is the sum of exactly the bets naming its candidate, in input order. */
  lemma EntryHoldsItsBets(cs: seq<Candidate>, bs: seq<Bet>, id: Id)
    requires id in Ids(cs)
    ensures var e := Entry(cs, bs, id);
      e.candidate.id == id && e.amount == Sum(e.bets) && e.count == |e.bets|
      && (forall b :: b in e.bets <==> b in bs && b.candidateId == id)
  {
  }

  /** A bet that names no candidate is in no entry. */
  lemma UnknownCandidateDropped(stats: seq<Statistic>, bets: seq<Bet>, candidates: seq<Candidate>, b: Bet)
    requires multiset(stats) == multiset(Entries(candidates, bets, Ids(candidates)))
    requires b.candidateId !in Ids(candidates)
    ensures forall k :: 0 <= k < |stats| ==> b !in stats[k].bets
  {
    StatisticsPerCandidate(stats, bets, candidates);
  }

  /** A candidate without bets still gets an entry, with amount 0 and no bets. */
  lemma CandidateWithoutBets(stats: seq<Statistic>, bets: seq<Bet>, candidates: seq<Candidate>, id: Id)
    requires multiset(stats) == multiset(Entries(candidates, bets, Ids(candidates)))
    requires id in Ids(candidates) && forall j :: 0 <= j < |bets| ==> bets[j].candidateId != id
    ensures exists k :: 0 <= k < |stats| && stats[k].candidate.id == id && stats[k].amount == 0 && stats[k].bets == []
  {
    StatisticsPerCandidate(stats, bets, candidates);
    var k :| 0 <= k < |stats| && stats[k].candidate.id == id;
    NoBetsFor(bets, id);
  }

  lemma {:induction false} NoBetsFor(bs: seq<Bet>, id: Id)
    requires forall j :: 0 <= j < |bs| ==> bs[j].candidateId != id
    ensures BetsFor(bs, id) == [] && Sum(BetsFor(bs, id)) == 0
    decreases |bs|
  {
    if |bs| > 0 {
      NoBetsFor(bs[..|bs| - 1], id);
    }
  }
}
