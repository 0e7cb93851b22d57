/** The staff summary card: each rep's takings today recomputed from the
    sale history, the active reps, the top performer and its badge. */
module StaffSummary {
  import opened Seqs
  import opened Domain
  import Text

  /** A sale by this rep, made today and not disputed. */
  predicate CountsFor(s: Sale, repId: string, now: int)
  {
    s.salesRepId == repId && SameDay(s, now) && NotDisputed(s)
  }

  function CountsForAt(repId: string, now: int): Sale -> bool
  {
    (s: Sale) => CountsFor(s, repId, now)
  }

  function RepTodaySales(sales: seq<Sale>, repId: string, now: int): int
  {
    Sum(Filter(sales, CountsForAt(repId, now)), TotalAmount)
  }

  /** `{ ...rep, todaySales }`: the rep with the stored counter replaced. */
  function RepStat(rep: SalesRep, sales: seq<Sale>, now: int): SalesRep
  {
    rep.(todaySales := RepTodaySales(sales, rep.id, now))
  }

  /** One entry per rep, in order, differing from the rep only in its
      recomputed takings for today. */
  function RepStats(reps: seq<SalesRep>, sales: seq<Sale>, now: int): (stats: seq<SalesRep>)
    ensures |stats| == |reps|
    ensures forall i :: 0 <= i < |reps| ==>
              stats[i].(todaySales := reps[i].todaySales) == reps[i]
              && stats[i].todaySales == RepTodaySales(sales, reps[i].id, now)
  {
    Map(reps, (r: SalesRep) => RepStat(r, sales, now))
  }

  /** The stored `todaySales` counter plays no part: reps that differ only in
      it get the same entries. */
  lemma StoredCounterIgnored(reps: seq<SalesRep>, reps': seq<SalesRep>, sales: seq<Sale>, now: int)
    requires |reps| == |reps'|
    requires forall i :: 0 <= i < |reps| ==> reps'[i] == reps[i].(todaySales := reps'[i].todaySales)
    ensures RepStats(reps', sales, now) == RepStats(reps, sales, now)
  {
    var a, b := RepStats(reps', sales, now), RepStats(reps, sales, now);
    forall i | 0 <= i < |a|
      ensures a[i] == b[i]
    {
      assert reps'[i].id == reps[i].id;
    }
  }

  /** A rep's takings grow by a new sale's amount exactly when it is theirs,
      from today and not disputed. */
  lemma RepTodaySalesAppend(sales: seq<Sale>, s: Sale, repId: string, now: int)
    ensures RepTodaySales(sales + [s], repId, now)
            == RepTodaySales(sales, repId, now) + (if CountsFor(s, repId, now) then s.totalAmount else 0)
  {
    assert [s][..0] == [];
    FilterAppend(sales, [s], CountsForAt(repId, now));
    SumAppend(Filter(sales, CountsForAt(repId, now)), Filter([s], CountsForAt(repId, now)), TotalAmount);
  }

  predicate IsActive(r: SalesRep)
  {
    r.isActive
  }

  function ActiveReps(stats: seq<SalesRep>): (active: seq<SalesRep>)
    ensures forall i :: 0 <= i < |active| ==> active[i] in stats && active[i].isActive
    ensures forall i :: 0 <= i < |stats| && stats[i].isActive ==> stats[i] in active
  {
    Filter(stats, IsActive)
  }

  /** `(a, b) => b.todaySales - a.todaySales`: highest takings first. */
  function ByTodayDesc(): (SalesRep, SalesRep) -> int
  {
    (a: SalesRep, b: SalesRep) => b.todaySales - a.todaySales
  }

  /** `[...activeReps].sort(...)[0]`: the sort works on a copy, so the card's
      own order is untouched; no active rep, no top performer. */
  function TopPerformer(stats: seq<SalesRep>): Option<SalesRep>
  {
    var ranked := SortBy(ActiveReps(stats), ByTodayDesc());
    if |ranked| == 0 then None else Some(ranked[0])
  }

  lemma ByTodayDescIsTotalPreorder()
    ensures TotalPreorder(ByTodayDesc())
  {
  }

  /** The top performer exists exactly when some rep is active, and it is an
      active rep whose takings no active rep exceeds. */
  lemma TopPerformerIsBest(stats: seq<SalesRep>)
    ensures TopPerformer(stats).Some? <==> exists i :: 0 <= i < |stats| && stats[i].isActive
    ensures TopPerformer(stats).Some? ==>
              var top := TopPerformer(stats).value;
              && top in stats && top.isActive
              && (forall i :: 0 <= i < |stats| && stats[i].isActive ==> stats[i].todaySales <= top.todaySales)
  {
    var active := ActiveReps(stats);
    var cmp := ByTodayDesc();
    ByTodayDescIsTotalPreorder();
    if |active| > 0 {
      var i0 := SortByHeadIsLeast(active, cmp);
      forall i | 0 <= i < |stats| && stats[i].isActive
        ensures stats[i].todaySales <= active[i0].todaySales
      {
        var k :| 0 <= k < |active| && active[k] == stats[i];
        assert cmp(active[i0], active[k]) <= 0;
      }
    }
  }

  /** Of several active reps with the best takings, the first in the card's
      order is the top performer. */
  lemma TopPerformerIsFirstOfTies(stats: seq<SalesRep>, j: nat)
    requires j < |ActiveReps(stats)|
    requires forall k :: 0 <= k < |ActiveReps(stats)| ==> ActiveReps(stats)[k].todaySales <= ActiveReps(stats)[j].todaySales
    requires forall i :: 0 <= i < j ==> ActiveReps(stats)[i].todaySales < ActiveReps(stats)[j].todaySales
    ensures TopPerformer(stats) == Some(ActiveReps(stats)[j])
  {
    var active := ActiveReps(stats);
    var cmp := ByTodayDesc();
    ByTodayDescIsTotalPreorder();
    assert IsLeastAt(active, cmp, j);
    forall i | 0 <= i < j
      ensures !IsLeastAt(active, cmp, i)
    {
      assert cmp(active[i], active[j]) > 0;
    }
    SortByHeadIsFirstLeast(active, cmp, j);
  }

  /** The TOP badge: this rep is the top performer and has taken something today. */
  predicate ShowsTopBadge(top: Option<SalesRep>, rep: SalesRep)
  {
    top.Some? && top.value.id == rep.id && rep.todaySales > 0
  }

  /** With distinct ids at most one row carries the badge, and only a row with
      takings today. */
  lemma AtMostOneTopBadge(stats: seq<SalesRep>, i: nat, j: nat)
    requires forall a, b :: 0 <= a < b < |stats| ==> stats[a].id != stats[b].id
    requires i < |stats| && j < |stats|
    requires ShowsTopBadge(TopPerformer(stats), stats[i]) && ShowsTopBadge(TopPerformer(stats), stats[j])
    ensures i == j
    ensures stats[i].todaySales > 0
  {
  }

  /** A quiet day shows no badge at all. */
  lemma NoTakingsNoBadge(stats: seq<SalesRep>, rep: SalesRep)
    requires rep.todaySales <= 0
    ensures !ShowsTopBadge(TopPerformer(stats), rep)
  {
  }

  /** The avatar text: the first character of each space-separated part of the name. */
  function AvatarInitials(rep: SalesRep): string
  {
    Text.Initials(rep.name)
  }
}
