/**
 * Reciprocal rank fusion (`reciprocal_rank_fusion` in src/agent/modules/rag/solver.py).
 * Hits are grouped by query text in first-seen order; walking each group in rank
 * order, a point at rank `r` adds 1/(60 + r + 1) to its id's score and becomes the
 * id's stored point; the ids are then sorted by score, highest first, ties kept in
 * the order the ids were first met.
 */
module Fusion {
  import opened Wrappers
  import opened Retrieval

  const K: nat := 60

  /** What a point at 0-based rank `rank` adds to its score. */
  function Contribution(rank: nat): (c: real)
    ensures 0.0 < c <= 1.0 / 61.0
  {
    1.0 / ((K + rank + 1) as real)
  }

  /** `query_rankings`' keys: the distinct query texts, in first-seen order. */
  function QueryOrder(hits: seq<Hit>): (qs: seq<string>)
    ensures forall q :: q in qs <==> exists i :: 0 <= i < |hits| && hits[i].query == q
    decreases |hits|
  {
    if hits == [] then []
    else
      var front := QueryOrder(hits[..|hits| - 1]);
      var q := hits[|hits| - 1].query;
      if q in front then front else front + [q]
  }

  /** `query_rankings[q]`: the points tagged with `q`, in their order among the hits. */
  function Ranking(hits: seq<Hit>, q: string): (ps: seq<Point>)
    ensures |ps| <= |hits|
    decreases |hits|
  {
    if hits == [] then []
    else
      var last := hits[|hits| - 1];
      Ranking(hits[..|hits| - 1], q) + (if last.query == q then [last.point] else [])
  }

  /** One scoring step: a point met at a rank. */
  datatype Vote = Vote(point: Point, rank: nat)

  function RankedVotes(ps: seq<Point>): (vs: seq<Vote>)
    ensures |vs| == |ps| && forall r :: 0 <= r < |ps| ==> vs[r] == Vote(ps[r], r)
  {
    seq(|ps|, r requires 0 <= r < |ps| => Vote(ps[r], r))
  }

  /** The votes of the groups `qs`, group after group. */
  function VotesOf(qs: seq<string>, hits: seq<Hit>): seq<Vote>
    decreases |qs|
  {
    if qs == [] then []
    else VotesOf(qs[..|qs| - 1], hits) + RankedVotes(Ranking(hits, qs[|qs| - 1]))
  }

  /** Every vote the fusion loop casts, in the order it casts them. */
  function Votes(hits: seq<Hit>): seq<Vote> {
    VotesOf(QueryOrder(hits), hits)
  }

  /** A `doc_scores` value: the stored point and the accumulated score. */
  datatype Entry = Entry(point: Point, score: real)

  /** `doc_scores`: the ids in insertion order and the entry of each. */
  datatype Tally = Tally(ids: seq<nat>, entries: map<nat, Entry>)

  function Count(t: Tally, v: Vote): Tally {
    var id := v.point.id;
    var prior := if id in t.entries then t.entries[id].score else 0.0;
    Tally(if id in t.entries then t.ids else t.ids + [id],
          t.entries[id := Entry(v.point, prior + Contribution(v.rank))])
  }

  function TallyOf(votes: seq<Vote>): Tally
    decreases |votes|
  {
    if votes == [] then Tally([], map[])
    else Count(TallyOf(votes[..|votes| - 1]), votes[|votes| - 1])
  }

  predicate Distinct<T(==)>(s: seq<T>) {
    forall i, j :: 0 <= i < j < |s| ==> s[i] != s[j]
  }

  /** The ids of `votes`, each once, in the order they are first voted for. */
  function FirstSeen(votes: seq<Vote>): seq<nat>
    decreases |votes|
  {
    if votes == [] then []
    else
      var front := FirstSeen(votes[..|votes| - 1]);
      var id := votes[|votes| - 1].point.id;
      if id in front then front else front + [id]
  }

  /** The sum of the contributions of the votes for `id`. */
  function VoteScore(votes: seq<Vote>, id: nat): real
    decreases |votes|
  {
    if votes == [] then 0.0
    else
      var last := votes[|votes| - 1];
      VoteScore(votes[..|votes| - 1], id) + (if last.point.id == id then Contribution(last.rank) else 0.0)
  }

  /** The point of the last vote for `id`. */
  function LastPointFor(votes: seq<Vote>, id: nat): Option<Point>
    decreases |votes|
  {
    if votes == [] then None
    else if votes[|votes| - 1].point.id == id then Some(votes[|votes| - 1].point)
    else LastPointFor(votes[..|votes| - 1], id)
  }

  /** A tally lists each voted id once, and holds for it the sum of its votes and its last point. */
  lemma TallyFacts(votes: seq<Vote>)
    ensures var t := TallyOf(votes);
      && Distinct(t.ids)
      && (forall id :: id in t.entries <==> id in t.ids)
      && (forall id :: id in t.ids <==> VotedFor(votes, id))
      && (forall id :: id in t.entries ==> t.entries[id].score == VoteScore(votes, id))
      && (forall id :: id in t.entries ==> LastPointFor(votes, id) == Some(t.entries[id].point))
      && (forall id :: id in t.entries ==> t.entries[id].point.id == id)
      && t.ids == FirstSeen(votes)
  {
    TallyIds(votes);
    FirstSeenFacts(votes);
    forall id | id in TallyOf(votes).entries
      ensures TallyOf(votes).entries[id].score == VoteScore(votes, id)
      ensures LastPointFor(votes, id) == Some(TallyOf(votes).entries[id].point)
      ensures TallyOf(votes).entries[id].point.id == id
    {
      TallyEntry(votes, id);
    }
  }

  /** The tally's ids are the first-seen ids, and exactly its keys. */
  lemma {:induction false} TallyIds(votes: seq<Vote>)
    ensures TallyOf(votes).ids == FirstSeen(votes)
    ensures forall id :: id in TallyOf(votes).entries <==> id in TallyOf(votes).ids
    decreases |votes|
  {
    if votes != [] {
      TallyIds(votes[..|votes| - 1]);
    }
  }

  /** The first-seen ids are distinct and are exactly the voted ids. */
  lemma {:induction false} FirstSeenFacts(votes: seq<Vote>)
    ensures Distinct(FirstSeen(votes))
    ensures forall id :: id in FirstSeen(votes) <==> VotedFor(votes, id)
    decreases |votes|
  {
    if votes != [] {
      var n := |votes| - 1;
      var front := votes[..n];
      FirstSeenFacts(front);
      forall id
        ensures id in FirstSeen(votes) <==> VotedFor(votes, id)
      {
        VotedForLast(votes, id);
      }
    }
  }

  /** A vote for `id` is among the earlier votes or is the last one. */
  lemma VotedForLast(votes: seq<Vote>, id: nat)
    requires votes != []
    ensures VotedFor(votes, id) <==> VotedFor(votes[..|votes| - 1], id) || votes[|votes| - 1].point.id == id
  {
    var n := |votes| - 1;
    if VotedFor(votes[..n], id) {
      var i :| 0 <= i < n && votes[..n][i].point.id == id;
      assert votes[i] == votes[..n][i];
    }
    if VotedFor(votes, id) && votes[n].point.id != id {
      var i :| 0 <= i < |votes| && votes[i].point.id == id;
      assert votes[..n][i] == votes[i];
    }
  }

  /** The entry of a voted id holds the sum of its votes and the point of its last vote. */
  lemma {:induction false} TallyEntry(votes: seq<Vote>, id: nat)
    requires id in TallyOf(votes).entries
    ensures TallyOf(votes).entries[id].score == VoteScore(votes, id)
    ensures LastPointFor(votes, id) == Some(TallyOf(votes).entries[id].point)
    ensures TallyOf(votes).entries[id].point.id == id
    decreases |votes|
  {
    var n := |votes| - 1;
    var front := votes[..n];
    var v := votes[n];
    if id != v.point.id {
      TallyEntry(front, id);
    } else if id in TallyOf(front).entries {
      TallyEntry(front, id);
    } else {
      TallyIds(front);
      FirstSeenFacts(front);
      NotVotedScoresZero(front, id);
    }
  }

  lemma NotVotedScoresZero(votes: seq<Vote>, id: nat)
    requires !VotedFor(votes, id)
    ensures VoteScore(votes, id) == 0.0
  {
    UnvotedScoresZero(votes, id);
  }

  lemma {:induction false} UnvotedScoresZero(votes: seq<Vote>, id: nat)
    requires forall i :: 0 <= i < |votes| ==> votes[i].point.id != id
    ensures VoteScore(votes, id) == 0.0
    decreases |votes|
  {
    if votes != [] {
      UnvotedScoresZero(votes[..|votes| - 1], id);
    }
  }

  /** The reference score: over the query groups, the contributions of the ranks at which `id` appears. */
  function RankScore(ps: seq<Point>, id: nat): real
    decreases |ps|
  {
    if ps == [] then 0.0
    else RankScore(ps[..|ps| - 1], id) + (if ps[|ps| - 1].id == id then Contribution(|ps| - 1) else 0.0)
  }

  function GroupsScore(qs: seq<string>, hits: seq<Hit>, id: nat): real
    decreases |qs|
  {
    if qs == [] then 0.0
    else GroupsScore(qs[..|qs| - 1], hits, id) + RankScore(Ranking(hits, qs[|qs| - 1]), id)
  }

  /** RRF: the sum, over every query whose results contain `id`, of 1/(60 + rank + 1). */
  function RrfScore(hits: seq<Hit>, id: nat): real {
    GroupsScore(QueryOrder(hits), hits, id)
  }

  lemma {:induction false} VoteScoreAppend(a: seq<Vote>, b: seq<Vote>, id: nat)
    ensures VoteScore(a + b, id) == VoteScore(a, id) + VoteScore(b, id)
    decreases |b|
  {
    if b == [] {
      assert a + b == a;
    } else {
      var n := |b| - 1;
      assert (a + b)[..|a + b| - 1] == a + b[..n];
      VoteScoreAppend(a, b[..n], id);
    }
  }

  lemma {:induction false} RankedVoteScore(ps: seq<Point>, id: nat)
    ensures VoteScore(RankedVotes(ps), id) == RankScore(ps, id)
    decreases |ps|
  {
    if ps != [] {
      var n := |ps| - 1;
      assert RankedVotes(ps)[..n] == RankedVotes(ps[..n]);
      RankedVoteScore(ps[..n], id);
    }
  }

  lemma {:induction false} VotesOfScore(qs: seq<string>, hits: seq<Hit>, id: nat)
    ensures VoteScore(VotesOf(qs, hits), id) == GroupsScore(qs, hits, id)
    decreases |qs|
  {
    if qs != [] {
      var n := |qs| - 1;
      VotesOfScore(qs[..n], hits, id);
      VoteScoreAppend(VotesOf(qs[..n], hits), RankedVotes(Ranking(hits, qs[n])), id);
      RankedVoteScore(Ranking(hits, qs[n]), id);
    }
  }

  /** The points of `s` whose score is `v`, in order. */
  function WithScore(s: seq<Entry>, v: real): seq<Entry>
    decreases |s|
  {
    if s == [] then []
    else (if s[0].score == v then [s[0]] else []) + WithScore(s[1..], v)
  }

  predicate SortedDesc(s: seq<Entry>) {
    forall i, j :: 0 <= i < j < |s| ==> s[i].score >= s[j].score
  }

  /** Places `e` after every entry scoring at least as much: the step of a stable descending sort. */
  function Insert(e: Entry, s: seq<Entry>): (r: seq<Entry>)
    ensures multiset(r) == multiset(s) + multiset{e}
    decreases |s|
  {
    if s == [] then [e]
    else if s[0].score >= e.score then
      assert s == [s[0]] + s[1..];
      [s[0]] + Insert(e, s[1..])
    else [e] + s
  }

  /** `sorted(..., key=score, reverse=True)`. */
  function SortDesc(s: seq<Entry>): (r: seq<Entry>)
    ensures multiset(r) == multiset(s)
    decreases |s|
  {
    if s == [] then []
    else
      assert s == s[..|s| - 1] + [s[|s| - 1]];
      Insert(s[|s| - 1], SortDesc(s[..|s| - 1]))
  }

  lemma {:induction false} InsertSorted(e: Entry, s: seq<Entry>)
    requires SortedDesc(s)
    ensures SortedDesc(Insert(e, s))
    decreases |s|
  {
    if s != [] && s[0].score >= e.score {
      InsertSorted(e, s[1..]);
      var r := Insert(e, s);
      var tail := Insert(e, s[1..]);
      assert r == [s[0]] + tail;
      forall k | 0 <= k < |tail| ensures s[0].score >= tail[k].score {
        assert tail[k] in multiset(tail);
        assert tail[k] in multiset(s[1..]) + multiset{e};
        if tail[k] in multiset(s[1..]) {
          var m :| 0 <= m < |s[1..]| && s[1..][m] == tail[k];
          assert s[m + 1] == tail[k];
        }
      }
    }
  }

  lemma {:induction false} WithScoreAppend(a: seq<Entry>, b: seq<Entry>, v: real)
    ensures WithScore(a + b, v) == WithScore(a, v) + WithScore(b, v)
    decreases |a|
  {
    if a == [] {
      assert a + b == b;
    } else {
      assert (a + b)[1..] == a[1..] + b;
      WithScoreAppend(a[1..], b, v);
    }
  }

  lemma {:induction false} WithScoreBelow(s: seq<Entry>, v: real)
    requires SortedDesc(s) && (s == [] || s[0].score < v)
    ensures WithScore(s, v) == []
    decreases |s|
  {
    if s != [] {
      WithScoreBelow(s[1..], v);
    }
  }

  /** `[e]` when `e` scores `v`, else nothing. */
  function Own(e: Entry, v: real): seq<Entry> {
    if e.score == v then [e] else []
  }

  lemma WithScoreCons(x: Entry, t: seq<Entry>, v: real)
    ensures WithScore([x] + t, v) == Own(x, v) + WithScore(t, v)
  {
    assert ([x] + t)[1..] == t;
  }

  /** Inserting behind a first entry that scores at least as much. */
  lemma StableBehind(e: Entry, s: seq<Entry>, v: real)
    requires s != [] && s[0].score >= e.score
    requires WithScore(Insert(e, s[1..]), v) == WithScore(s[1..], v) + Own(e, v)
    ensures WithScore(Insert(e, s), v) == WithScore(s, v) + Own(e, v)
  {
    var tail := Insert(e, s[1..]);
    var x := s[0];
    InsertBehind(e, s);
    WithScoreCons(x, tail, v);
    WithScoreHead(s, v);
    SeqAssoc(Own(x, v), WithScore(s[1..], v), Own(e, v));
  }

  lemma InsertBehind(e: Entry, s: seq<Entry>)
    requires s != [] && s[0].score >= e.score
    ensures Insert(e, s) == [s[0]] + Insert(e, s[1..])
  {
  }

  lemma WithScoreHead(s: seq<Entry>, v: real)
    requires s != []
    ensures WithScore(s, v) == Own(s[0], v) + WithScore(s[1..], v)
  {
  }

  lemma SeqAssoc(a: seq<Entry>, b: seq<Entry>, c: seq<Entry>)
    ensures a + (b + c) == (a + b) + c
  {
  }

  /** Inserting in front of a sorted sequence whose first entry scores less. */
  lemma StableAhead(e: Entry, s: seq<Entry>, v: real)
    requires SortedDesc(s) && s != [] && s[0].score < e.score
    ensures WithScore(Insert(e, s), v) == WithScore(s, v) + Own(e, v)
  {
    assert Insert(e, s) == [e] + s;
    WithScoreCons(e, s, v);
    if e.score == v {
      WithScoreBelow(s, v);
      assert Own(e, v) == [e];
    } else {
      assert Own(e, v) == [];
      assert WithScore(s, v) + [] == WithScore(s, v);
    }
  }

  lemma {:induction false} InsertStable(e: Entry, s: seq<Entry>, v: real)
    requires SortedDesc(s)
    ensures WithScore(Insert(e, s), v) == WithScore(s, v) + Own(e, v)
    decreases |s|
  {
    if s == [] {
      WithScoreCons(e, [], v);
      assert [e] + [] == [e];
    } else if s[0].score >= e.score {
      InsertStable(e, s[1..], v);
      StableBehind(e, s, v);
    } else {
      StableAhead(e, s, v);
    }
  }

  lemma WithScoreLast(s: seq<Entry>, v: real)
    requires s != []
    ensures WithScore(s, v) == WithScore(s[..|s| - 1], v) + Own(s[|s| - 1], v)
  {
    var n := |s| - 1;
    assert s == s[..n] + [s[n]];
    WithScoreAppend(s[..n], [s[n]], v);
    WithScoreCons(s[n], [], v);
    assert [s[n]] + [] == [s[n]];
  }

  lemma SortDescLast(s: seq<Entry>)
    requires s != []
    ensures SortDesc(s) == Insert(s[|s| - 1], SortDesc(s[..|s| - 1]))
  {
  }

  /** Inserting the last entry keeps each score's entries in their original order. */
  lemma StableStep(s: seq<Entry>, v: real)
    requires s != [] && SortedDesc(SortDesc(s[..|s| - 1]))
    requires WithScore(SortDesc(s[..|s| - 1]), v) == WithScore(s[..|s| - 1], v)
    ensures WithScore(SortDesc(s), v) == WithScore(s, v)
  {
    SortDescLast(s);
    InsertStable(s[|s| - 1], SortDesc(s[..|s| - 1]), v);
    WithScoreLast(s, v);
  }

  /** The sort is descending, a permutation, and stable: the entries of one score keep their order. */
  lemma {:induction false} SortDescFacts(s: seq<Entry>)
    ensures SortedDesc(SortDesc(s))
    ensures multiset(SortDesc(s)) == multiset(s)
    ensures forall v :: WithScore(SortDesc(s), v) == WithScore(s, v)
    decreases |s|
  {
    if s != [] {
      var n := |s| - 1;
      SortDescFacts(s[..n]);
      InsertSorted(s[n], SortDesc(s[..n]));
      forall v ensures WithScore(SortDesc(s), v) == WithScore(s, v) {
        StableStep(s, v);
      }
    }
  }

  /** `doc_scores.values()`, in insertion order. */
  function Values(t: Tally): (es: seq<Entry>)
    requires forall id :: id in t.ids ==> id in t.entries
    ensures |es| == |t.ids| && forall i :: 0 <= i < |t.ids| ==> es[i] == t.entries[t.ids[i]]
  {
    seq(|t.ids|, i requires 0 <= i < |t.ids| => t.entries[t.ids[i]])
  }

  function PointsOf(es: seq<Entry>): (ps: seq<Point>)
    ensures |ps| == |es| && forall i :: 0 <= i < |es| ==> ps[i] == es[i].point
  {
    seq(|es|, i requires 0 <= i < |es| => es[i].point)
  }

  /** `doc_scores.values()` once every vote is counted. */
  function Unsorted(hits: seq<Hit>): seq<Entry> {
    TallyFacts(Votes(hits));
    Values(TallyOf(Votes(hits)))
  }

  /** The ranked entries RRF produces, before their points are taken. */
  function Ranked(hits: seq<Hit>): seq<Entry> {
    SortDesc(Unsorted(hits))
  }

  /** The fused result: the stored point of each ranked entry. */
  function Fuse(hits: seq<Hit>): seq<Point> {
    PointsOf(Ranked(hits))
  }

  /** The first loop of `reciprocal_rank_fusion`: `query_rankings`, keys in insertion order. */
  method GroupByQuery(hits: seq<Hit>) returns (order: seq<string>, rankings: map<string, seq<Point>>)
    ensures order == QueryOrder(hits)
    ensures forall q :: q in rankings <==> q in order
    ensures forall q :: q in rankings ==> rankings[q] == Ranking(hits, q)
  {
    order := [];
    rankings := map[];
    var i := 0;
    while i < |hits|
      invariant 0 <= i <= |hits|
      invariant order == QueryOrder(hits[..i])
      invariant forall q :: q in rankings <==> q in order
      invariant forall q :: q in rankings ==> rankings[q] == Ranking(hits[..i], q)
    {
      var h := hits[i];
      assert hits[..i + 1][..i] == hits[..i];
      if h.query !in rankings {
        UnseenQueryHasNoRanking(hits[..i], h.query);
      }
      var prior := if h.query in rankings then rankings[h.query] else [];
      if h.query !in rankings {
        order := order + [h.query];
      }
      rankings := rankings[h.query := prior + [h.point]];
      i := i + 1;
    }
    assert hits[..|hits|] == hits;
  }

  /** The scoring loops of `reciprocal_rank_fusion`: `doc_scores`, keys in insertion order. */
  method ScoreGroups(hits: seq<Hit>, order: seq<string>, rankings: map<string, seq<Point>>)
    returns (ids: seq<nat>, docScores: map<nat, Entry>)
    requires forall q :: q in order ==> q in rankings && rankings[q] == Ranking(hits, q)
    ensures Tally(ids, docScores) == TallyOf(VotesOf(order, hits))
  {
    ids := [];
    docScores := map[];
    var qi := 0;
    while qi < |order|
      invariant 0 <= qi <= |order|
      invariant Tally(ids, docScores) == TallyOf(VotesOf(order[..qi], hits))
    {
      var points := rankings[order[qi]];
      ghost var start := Tally(ids, docScores);
      var rank := 0;
      while rank < |points|
        invariant 0 <= rank <= |points|
        invariant Tally(ids, docScores) == CountRanks(start, points, rank)
      {
        var point := points[rank];
        ghost var t0 := Tally(ids, docScores);
        var docId := point.id;
        var score := if docId in docScores then docScores[docId].score else 0.0;
        if docId !in docScores {
          ids := ids + [docId];
        }
        docScores := docScores[docId := Entry(point, score + Contribution(rank))];
        assert Tally(ids, docScores) == Count(t0, Vote(point, rank));
        rank := rank + 1;
      }
      CountRanksIsTallyOf(VotesOf(order[..qi], hits), points, |points|);
      NextGroup(order, qi, hits, points);
      qi := qi + 1;
    }
    assert order[..|order|] == order;
  }

  /** A group whose every point is counted extends the tally of the groups before it. */
  lemma NextGroup(order: seq<string>, qi: nat, hits: seq<Hit>, points: seq<Point>)
    requires qi < |order| && points == Ranking(hits, order[qi])
    ensures VotesOf(order[..qi + 1], hits) == VotesOf(order[..qi], hits) + RankedVotes(points[..|points|])
  {
    assert order[..qi + 1][..qi] == order[..qi];
    assert points[..|points|] == points;
  }

  /** The tally `t` after counting the points of ranks `0 .. rank - 1`. */
  function CountRanks(t: Tally, points: seq<Point>, rank: nat): Tally
    requires rank <= |points|
  {
    if rank == 0 then t else Count(CountRanks(t, points, rank - 1), Vote(points[rank - 1], rank - 1))
  }

  lemma CountRanksStep(t: Tally, points: seq<Point>, r: nat)
    requires r < |points|
    ensures CountRanks(t, points, r + 1) == Count(CountRanks(t, points, r), Vote(points[r], r))
  {
  }

  /** Counting the ranks one by one is tallying the group's votes after the earlier ones. */
  lemma {:induction false} CountRanksIsTallyOf(done: seq<Vote>, points: seq<Point>, rank: nat)
    requires rank <= |points|
    ensures CountRanks(TallyOf(done), points, rank) == TallyOf(done + RankedVotes(points[..rank]))
  {
    if rank == 0 {
      assert RankedVotes(points[..0]) == [];
      assert done + [] == done;
    } else {
      var r := rank - 1;
      CountRanksIsTallyOf(done, points, r);
      CountNext(done, points, r);
      CountRanksStep(TallyOf(done), points, r);
    }
  }

  /** Casting the vote at `rank` is one `Count` step. */
  lemma CountNext(done: seq<Vote>, points: seq<Point>, rank: nat)
    requires rank < |points|
    ensures TallyOf(done + RankedVotes(points[..rank + 1]))
         == Count(TallyOf(done + RankedVotes(points[..rank])), Vote(points[rank], rank))
  {
    var before := done + RankedVotes(points[..rank]);
    assert RankedVotes(points[..rank + 1]) == RankedVotes(points[..rank]) + [Vote(points[rank], rank)];
    assert done + RankedVotes(points[..rank + 1]) == before + [Vote(points[rank], rank)];
    assert (before + [Vote(points[rank], rank)])[..|before|] == before;
  }

  /** `reciprocal_rank_fusion`: group the hits by query, score every group, sort by score. */
  method ReciprocalRankFusion(hits: seq<Hit>) returns (fused: seq<Point>)
    ensures fused == Fuse(hits)
  {
    var order, rankings := GroupByQuery(hits);
    var ids, docScores := ScoreGroups(hits, order, rankings);
    TallyFacts(Votes(hits));
    var values := seq(|ids|, k requires 0 <= k < |ids| => docScores[ids[k]]);
    assert values == Unsorted(hits);
    var ranked := SortDesc(values);
    fused := seq(|ranked|, k requires 0 <= k < |ranked| => ranked[k].point);
  }

  lemma {:induction false} UnseenQueryHasNoRanking(hits: seq<Hit>, q: string)
    requires q !in QueryOrder(hits)
    ensures Ranking(hits, q) == []
    decreases |hits|
  {
    if hits != [] {
      UnseenQueryHasNoRanking(hits[..|hits| - 1], q);
    }
  }

  /** The ids of `es`, in order. */
  function IdsOf(es: seq<Entry>): (ids: seq<nat>)
    ensures |ids| == |es| && forall i :: 0 <= i < |es| ==> ids[i] == es[i].point.id
  {
    seq(|es|, i requires 0 <= i < |es| => es[i].point.id)
  }

  /** The ids of `ids` whose RRF score is `v`, in order. */
  function Tied(ids: seq<nat>, hits: seq<Hit>, v: real): seq<nat>
    decreases |ids|
  {
    if ids == [] then []
    else (if RrfScore(hits, ids[0]) == v then [ids[0]] else []) + Tied(ids[1..], hits, v)
  }

  lemma {:induction false} RankingMembers(hits: seq<Hit>, q: string)
    ensures forall p :: p in Ranking(hits, q) <==>
      exists i :: 0 <= i < |hits| && hits[i].query == q && hits[i].point == p
    decreases |hits|
  {
    if hits != [] {
      var n := |hits| - 1;
      RankingMembers(hits[..n], q);
      forall p ensures p in Ranking(hits, q) <==>
        exists i :: 0 <= i < |hits| && hits[i].query == q && hits[i].point == p
      {
        if p in Ranking(hits[..n], q) {
          var i :| 0 <= i < n && hits[..n][i].query == q && hits[..n][i].point == p;
          assert hits[i] == hits[..n][i];
        }
        if exists i :: 0 <= i < |hits| && hits[i].query == q && hits[i].point == p {
          var i :| 0 <= i < |hits| && hits[i].query == q && hits[i].point == p;
          if i < n {
            assert hits[..n][i] == hits[i];
          }
        }
      }
    }
  }

  predicate VotedFor(votes: seq<Vote>, id: nat) {
    exists k :: 0 <= k < |votes| && votes[k].point.id == id
  }

  predicate RankedIn(qs: seq<string>, hits: seq<Hit>, id: nat) {
    exists q, p :: q in qs && p in Ranking(hits, q) && p.id == id
  }

  predicate Retrieved(hits: seq<Hit>, id: nat) {
    exists i :: 0 <= i < |hits| && hits[i].point.id == id
  }

  lemma {:induction false} VotesOfIds(qs: seq<string>, hits: seq<Hit>)
    ensures forall id :: VotedFor(VotesOf(qs, hits), id) <==> RankedIn(qs, hits, id)
    decreases |qs|
  {
    if qs != [] {
      var n := |qs| - 1;
      VotesOfIds(qs[..n], hits);
      forall id ensures VotedFor(VotesOf(qs, hits), id) <==> RankedIn(qs, hits, id) {
        VotedForAppend(VotesOf(qs[..n], hits), RankedVotes(Ranking(hits, qs[n])), id);
        VotedForRanked(Ranking(hits, qs[n]), id);
        RankedInLast(qs, hits, id);
      }
    }
  }

  lemma VotedForAppend(a: seq<Vote>, b: seq<Vote>, id: nat)
    ensures VotedFor(a + b, id) <==> VotedFor(a, id) || VotedFor(b, id)
  {
    if VotedFor(a + b, id) {
      var k :| 0 <= k < |a + b| && (a + b)[k].point.id == id;
      if k < |a| {
        assert a[k] == (a + b)[k];
      } else {
        assert b[k - |a|] == (a + b)[k];
      }
    }
    if VotedFor(a, id) {
      var k :| 0 <= k < |a| && a[k].point.id == id;
      assert (a + b)[k] == a[k];
    }
    if VotedFor(b, id) {
      var k :| 0 <= k < |b| && b[k].point.id == id;
      assert (a + b)[|a| + k] == b[k];
    }
  }

  lemma VotedForRanked(ps: seq<Point>, id: nat)
    ensures VotedFor(RankedVotes(ps), id) <==> exists p :: p in ps && p.id == id
  {
    if exists p :: p in ps && p.id == id {
      var p :| p in ps && p.id == id;
      var r :| 0 <= r < |ps| && ps[r] == p;
      assert RankedVotes(ps)[r].point == p;
    }
  }

  lemma RankedInLast(qs: seq<string>, hits: seq<Hit>, id: nat)
    requires qs != []
    ensures RankedIn(qs, hits, id) <==>
      RankedIn(qs[..|qs| - 1], hits, id) || exists p :: p in Ranking(hits, qs[|qs| - 1]) && p.id == id
  {
    var n := |qs| - 1;
    if RankedIn(qs, hits, id) {
      var q, p :| q in qs && p in Ranking(hits, q) && p.id == id;
      if q != qs[n] {
        var m :| 0 <= m < |qs| && qs[m] == q;
        assert qs[..n][m] == q;
      }
    }
    if RankedIn(qs[..n], hits, id) {
      var q, p :| q in qs[..n] && p in Ranking(hits, q) && p.id == id;
      assert q in qs;
    }
  }

  /** The ids the fusion scores are exactly the ids among the hits. */
  lemma VotedIdsAreHitIds(hits: seq<Hit>)
    ensures forall id :: VotedFor(Votes(hits), id) <==> Retrieved(hits, id)
  {
    var qs := QueryOrder(hits);
    VotesOfIds(qs, hits);
    forall id ensures RankedIn(qs, hits, id) <==> Retrieved(hits, id) {
      if RankedIn(qs, hits, id) {
        var q, p :| q in qs && p in Ranking(hits, q) && p.id == id;
        RankingMembers(hits, q);
      }
      if Retrieved(hits, id) {
        var i :| 0 <= i < |hits| && hits[i].point.id == id;
        var q := hits[i].query;
        RankingMembers(hits, q);
        assert hits[i].point in Ranking(hits, q);
      }
    }
  }

  function PointIds(ps: seq<Point>): (ids: seq<nat>)
    ensures |ids| == |ps| && forall i :: 0 <= i < |ps| ==> ids[i] == ps[i].id
  {
    seq(|ps|, i requires 0 <= i < |ps| => ps[i].id)
  }

  predicate DistinctIds(s: seq<Entry>) {
    forall i, j :: 0 <= i < j < |s| ==> s[i].point.id != s[j].point.id
  }

  /** Putting an entry whose id is new in front keeps the ids distinct. */
  lemma ConsDistinct(e: Entry, s: seq<Entry>)
    requires DistinctIds(s)
    requires forall k :: 0 <= k < |s| ==> s[k].point.id != e.point.id
    ensures DistinctIds([e] + s)
  {
    var r := [e] + s;
    forall i, j | 0 <= i < j < |r| ensures r[i].point.id != r[j].point.id {
      assert r[j] == s[j - 1];
      if i > 0 {
        assert r[i] == s[i - 1];
      }
    }
  }

  lemma {:induction false} InsertDistinct(e: Entry, s: seq<Entry>)
    requires DistinctIds(s)
    requires forall k :: 0 <= k < |s| ==> s[k].point.id != e.point.id
    ensures DistinctIds(Insert(e, s))
    decreases |s|
  {
    if s != [] && s[0].score >= e.score {
      var rest := s[1..];
      assert DistinctIds(rest) by {
        forall i, j | 0 <= i < j < |rest| ensures rest[i].point.id != rest[j].point.id {
          assert rest[i] == s[i + 1] && rest[j] == s[j + 1];
        }
      }
      InsertDistinct(e, rest);
      var tail := Insert(e, rest);
      forall k | 0 <= k < |tail| ensures tail[k].point.id != s[0].point.id {
        assert tail[k] in multiset(tail);
        if tail[k] != e {
          assert tail[k] in multiset(rest);
          var m :| 0 <= m < |rest| && rest[m] == tail[k];
          assert s[m + 1] == tail[k];
        }
      }
      ConsDistinct(s[0], tail);
    } else if s != [] {
      ConsDistinct(e, s);
    }
  }

  lemma {:induction false} SortKeepsDistinct(s: seq<Entry>)
    requires DistinctIds(s)
    ensures DistinctIds(SortDesc(s))
    decreases |s|
  {
    if s != [] {
      var n := |s| - 1;
      var front := s[..n];
      assert DistinctIds(front) by {
        forall i, j | 0 <= i < j < n ensures front[i].point.id != front[j].point.id {
          assert front[i] == s[i] && front[j] == s[j];
        }
      }
      SortKeepsDistinct(front);
      var sorted := SortDesc(front);
      forall k | 0 <= k < |sorted| ensures sorted[k].point.id != s[n].point.id {
        assert sorted[k] in multiset(sorted);
        assert sorted[k] in multiset(front);
        var m :| 0 <= m < n && front[m] == sorted[k];
        assert s[m] == sorted[k];
      }
      InsertDistinct(s[n], sorted);
    }
  }

  /** The entries before sorting: each retrieved id once, first-seen order, with its RRF score and last point. */
  lemma UnsortedFacts(hits: seq<Hit>)
    ensures IdsOf(Unsorted(hits)) == FirstSeen(Votes(hits))
    ensures Distinct(FirstSeen(Votes(hits)))
    ensures forall id :: id in FirstSeen(Votes(hits)) <==> Retrieved(hits, id)
    ensures forall k :: 0 <= k < |Unsorted(hits)| ==>
      && Unsorted(hits)[k].score == RrfScore(hits, Unsorted(hits)[k].point.id)
      && LastPointFor(Votes(hits), Unsorted(hits)[k].point.id) == Some(Unsorted(hits)[k].point)
  {
    var votes := Votes(hits);
    TallyFacts(votes);
    VotedIdsAreHitIds(hits);
    var t := TallyOf(votes);
    forall k | 0 <= k < |Unsorted(hits)|
      ensures Unsorted(hits)[k].score == RrfScore(hits, Unsorted(hits)[k].point.id)
    {
      VotesOfScore(QueryOrder(hits), hits, t.ids[k]);
    }
  }

  /** Every entry of `Ranked` is an entry of `Unsorted`, so the per-entry facts carry over. */
  lemma RankedFacts(hits: seq<Hit>)
    ensures forall k :: 0 <= k < |Ranked(hits)| ==>
      && Ranked(hits)[k].score == RrfScore(hits, Ranked(hits)[k].point.id)
      && LastPointFor(Votes(hits), Ranked(hits)[k].point.id) == Some(Ranked(hits)[k].point)
  {
    UnsortedFacts(hits);
    forall k | 0 <= k < |Ranked(hits)|
      ensures Ranked(hits)[k] in Unsorted(hits)
    {
      assert Ranked(hits)[k] in multiset(Ranked(hits));
    }
  }

  lemma {:induction false} TiedIsWithScore(es: seq<Entry>, hits: seq<Hit>, v: real)
    requires forall k :: 0 <= k < |es| ==> es[k].score == RrfScore(hits, es[k].point.id)
    ensures IdsOf(WithScore(es, v)) == Tied(IdsOf(es), hits, v)
    decreases |es|
  {
    if es != [] {
      TiedIsWithScore(es[1..], hits, v);
      assert IdsOf(es)[1..] == IdsOf(es[1..]);
      var head: seq<Entry> := if es[0].score == v then [es[0]] else [];
      assert IdsOf(head + WithScore(es[1..], v)) == IdsOf(head) + IdsOf(WithScore(es[1..], v));
    }
  }

  predicate Lists(ps: seq<Point>, id: nat) {
    exists k :: 0 <= k < |ps| && ps[k].id == id
  }

  /**
   * The fused list holds every retrieved id exactly once and no other, each
   * represented by the last point met for it while walking the query groups.
   */
  lemma FusionListsEachHitOnce(hits: seq<Hit>)
    ensures Distinct(PointIds(Fuse(hits)))
    ensures forall id :: Lists(Fuse(hits), id) <==> Retrieved(hits, id)
    ensures forall k :: 0 <= k < |Fuse(hits)| ==> LastPointFor(Votes(hits), Fuse(hits)[k].id) == Some(Fuse(hits)[k])
  {
    var u := Unsorted(hits);
    var r := Ranked(hits);
    UnsortedFacts(hits);
    RankedFacts(hits);
    SortDescFacts(u);
    DistinctFromIds(u);
    SortKeepsDistinct(u);
    DistinctPointIds(r);
    forall id ensures Lists(Fuse(hits), id) <==> Retrieved(hits, id) {
      ListsPointsOf(r, id);
      PermutationHasId(u, r, id);
      HasIdInIds(u, id);
    }
  }

  /** The point kept for `id` is the point of one of the votes. */
  lemma {:induction false} LastPointIsVoted(votes: seq<Vote>, id: nat)
    requires LastPointFor(votes, id).Some?
    ensures exists j :: 0 <= j < |votes| && votes[j].point == LastPointFor(votes, id).value
    decreases |votes|
  {
    var n := |votes| - 1;
    if votes[n].point.id != id {
      LastPointIsVoted(votes[..n], id);
      var j :| 0 <= j < n && votes[..n][j].point == LastPointFor(votes[..n], id).value;
      assert votes[j] == votes[..n][j];
    }
  }

  /** Every vote of the groups `qs` is for a point of one of their rankings. */
  lemma {:induction false} VotesAreRanked(qs: seq<string>, hits: seq<Hit>, j: nat)
    requires j < |VotesOf(qs, hits)|
    ensures exists q :: q in qs && VotesOf(qs, hits)[j].point in Ranking(hits, q)
    decreases |qs|
  {
    var n := |qs| - 1;
    var front := VotesOf(qs[..n], hits);
    if j < |front| {
      VotesAreRanked(qs[..n], hits, j);
      var q :| q in qs[..n] && front[j].point in Ranking(hits, q);
      assert VotesOf(qs, hits)[j] == front[j];
      assert q in qs;
    } else {
      var r := j - |front|;
      assert VotesOf(qs, hits)[j] == RankedVotes(Ranking(hits, qs[n]))[r];
      assert Ranking(hits, qs[n])[r] in Ranking(hits, qs[n]);
    }
  }

  /** Fusion invents no point: every fused point is the point of one of the hits. */
  lemma FusedPointsAreHitPoints(hits: seq<Hit>, k: nat)
    requires k < |Fuse(hits)|
    ensures exists i :: 0 <= i < |hits| && hits[i].point == Fuse(hits)[k]
  {
    var p := Fuse(hits)[k];
    var votes := Votes(hits);
    FusionListsEachHitOnce(hits);
    LastPointIsVoted(votes, p.id);
    var j :| 0 <= j < |votes| && votes[j].point == p;
    VotesAreRanked(QueryOrder(hits), hits, j);
    var q :| q in QueryOrder(hits) && p in Ranking(hits, q);
    RankingMembers(hits, q);
  }

  /** Some entry of `es` is for `id`. */
  predicate HasId(es: seq<Entry>, id: nat) {
    exists k :: 0 <= k < |es| && es[k].point.id == id
  }

  lemma DistinctFromIds(es: seq<Entry>)
    requires Distinct(IdsOf(es))
    ensures DistinctIds(es)
  {
    forall i, j | 0 <= i < j < |es| ensures es[i].point.id != es[j].point.id {
      assert IdsOf(es)[i] != IdsOf(es)[j];
    }
  }

  lemma DistinctPointIds(es: seq<Entry>)
    requires DistinctIds(es)
    ensures Distinct(PointIds(PointsOf(es)))
  {
  }

  lemma ListsPointsOf(es: seq<Entry>, id: nat)
    ensures Lists(PointsOf(es), id) <==> HasId(es, id)
  {
    if HasId(es, id) {
      var k :| 0 <= k < |es| && es[k].point.id == id;
      assert PointsOf(es)[k].id == id;
    }
  }

  lemma HasIdInIds(es: seq<Entry>, id: nat)
    ensures HasId(es, id) <==> id in IdsOf(es)
  {
    if HasId(es, id) {
      var k :| 0 <= k < |es| && es[k].point.id == id;
      assert IdsOf(es)[k] == id;
    }
  }

  /** Reordering the entries does not change which ids they hold. */
  lemma PermutationHasId(u: seq<Entry>, r: seq<Entry>, id: nat)
    requires multiset(r) == multiset(u)
    ensures HasId(r, id) <==> HasId(u, id)
  {
    if HasId(r, id) {
      var k :| 0 <= k < |r| && r[k].point.id == id;
      assert r[k] in multiset(u);
      var m :| 0 <= m < |u| && u[m] == r[k];
    }
    if HasId(u, id) {
      var m :| 0 <= m < |u| && u[m].point.id == id;
      assert u[m] in multiset(r);
      var k :| 0 <= k < |r| && r[k] == u[m];
    }
  }

  /** The fused list is in descending order of RRF score. */
  lemma FusionOrdersByRrf(hits: seq<Hit>)
    ensures forall i, j :: 0 <= i < j < |Fuse(hits)| ==> RrfScore(hits, Fuse(hits)[i].id) >= RrfScore(hits, Fuse(hits)[j].id)
  {
    SortDescFacts(Unsorted(hits));
    RankedFacts(hits);
  }

  /** Ids with equal RRF scores keep the order in which the query groups first met them. */
  lemma FusionBreaksTiesByFirstSeen(hits: seq<Hit>, v: real)
    ensures Tied(PointIds(Fuse(hits)), hits, v) == Tied(FirstSeen(Votes(hits)), hits, v)
  {
    UnsortedFacts(hits);
    RankedFacts(hits);
    SortDescFacts(Unsorted(hits));
    assert PointIds(Fuse(hits)) == IdsOf(Ranked(hits));
    TiedIsWithScore(Ranked(hits), hits, v);
    TiedIsWithScore(Unsorted(hits), hits, v);
  }

  /**
   * Two queries: A retrieves d1 then d3, B retrieves d2, d3, d1. d1 scores
   * 1/61 + 1/63, d3 scores 2/62 and d2 scores 1/61, so a document found by both
   * queries outranks one found first by a single query.
   */
  lemma TwoQueryFixture(p1: Point, p2: Point, p3: Point)
    requires p1.id == 1 && p2.id == 2 && p3.id == 3
    ensures var hits := [Hit(p1, "A"), Hit(p3, "A"), Hit(p2, "B"), Hit(p3, "B"), Hit(p1, "B")];
      && RrfScore(hits, 1) == 1.0 / 61.0 + 1.0 / 63.0
      && RrfScore(hits, 3) == 1.0 / 62.0 + 1.0 / 62.0
      && RrfScore(hits, 2) == 1.0 / 61.0
      && PointIds(Fuse(hits)) == [1, 3, 2]
  {
    var hits := [Hit(p1, "A"), Hit(p3, "A"), Hit(p2, "B"), Hit(p3, "B"), Hit(p1, "B")];
    var votes := [Vote(p1, 0), Vote(p3, 1), Vote(p2, 0), Vote(p3, 1), Vote(p1, 2)];
    FixtureGroups(p1, p2, p3, hits, votes);
    FixtureScores(p1, p2, p3, hits);
    UnsortedFacts(hits);
    FixtureVotes(p1, p2, p3, votes);
    FixtureEntries(Unsorted(hits), hits, votes, p1, p2, p3);
    FixtureSort(Entry(p1, RrfScore(hits, 1)), Entry(p2, RrfScore(hits, 2)), Entry(p3, RrfScore(hits, 3)));
  }

  lemma FixtureGroups(p1: Point, p2: Point, p3: Point, hits: seq<Hit>, votes: seq<Vote>)
    requires hits == [Hit(p1, "A"), Hit(p3, "A"), Hit(p2, "B"), Hit(p3, "B"), Hit(p1, "B")]
    requires votes == [Vote(p1, 0), Vote(p3, 1), Vote(p2, 0), Vote(p3, 1), Vote(p1, 2)]
    ensures QueryOrder(hits) == ["A", "B"]
    ensures Ranking(hits, "A") == [p1, p3] && Ranking(hits, "B") == [p2, p3, p1]
    ensures Votes(hits) == votes
  {
    var h1, h2, h3, h4 := FixturePrefixes(p1, p2, p3, hits);
    assert QueryOrder(h1) == ["A"];
    assert QueryOrder(h2) == ["A"];
    assert QueryOrder(h3) == ["A", "B"];
    assert QueryOrder(h4) == ["A", "B"];
    FixtureRankings(p1, p2, p3, hits);
    var qa: seq<string> := ["A"];
    assert ["A", "B"][..1] == qa && |qa[..0]| == 0;
    assert VotesOf(qa, hits) == [Vote(p1, 0), Vote(p3, 1)];
  }

  lemma FixturePrefixes(p1: Point, p2: Point, p3: Point, hits: seq<Hit>)
    returns (h1: seq<Hit>, h2: seq<Hit>, h3: seq<Hit>, h4: seq<Hit>)
    requires hits == [Hit(p1, "A"), Hit(p3, "A"), Hit(p2, "B"), Hit(p3, "B"), Hit(p1, "B")]
    ensures "A" != "B"
    ensures h1 == [Hit(p1, "A")] && h2 == h1 + [Hit(p3, "A")] && h3 == h2 + [Hit(p2, "B")]
    ensures h4 == h3 + [Hit(p3, "B")] && hits == h4 + [Hit(p1, "B")]
    ensures hits[..4] == h4 && h4[..3] == h3 && h3[..2] == h2 && h2[..1] == h1 && |h1[..0]| == 0
  {
    var a, b := "A", "B";
    assert a != b by { assert a[0] != b[0]; }
    h1 := [Hit(p1, a)];
    h2 := h1 + [Hit(p3, a)];
    h3 := h2 + [Hit(p2, b)];
    h4 := h3 + [Hit(p3, b)];
    assert hits == h4 + [Hit(p1, b)];
  }

  lemma FixtureRankings(p1: Point, p2: Point, p3: Point, hits: seq<Hit>)
    requires hits == [Hit(p1, "A"), Hit(p3, "A"), Hit(p2, "B"), Hit(p3, "B"), Hit(p1, "B")]
    ensures Ranking(hits, "A") == [p1, p3] && Ranking(hits, "B") == [p2, p3, p1]
  {
    var h1, h2, h3, h4 := FixturePrefixes(p1, p2, p3, hits);
    assert Ranking(h1, "A") == [p1] && Ranking(h1, "B") == [];
    assert Ranking(h2, "A") == [p1, p3] && Ranking(h2, "B") == [];
    assert Ranking(h3, "A") == [p1, p3] && Ranking(h3, "B") == [p2];
    assert Ranking(h4, "A") == [p1, p3] && Ranking(h4, "B") == [p2, p3];
  }

  lemma FixtureScores(p1: Point, p2: Point, p3: Point, hits: seq<Hit>)
    requires p1.id == 1 && p2.id == 2 && p3.id == 3
    requires QueryOrder(hits) == ["A", "B"]
    requires Ranking(hits, "A") == [p1, p3] && Ranking(hits, "B") == [p2, p3, p1]
    ensures RrfScore(hits, 1) == 1.0 / 61.0 + 1.0 / 63.0
    ensures RrfScore(hits, 3) == 1.0 / 62.0 + 1.0 / 62.0
    ensures RrfScore(hits, 2) == 1.0 / 61.0
  {
    var qa: seq<string> := ["A"];
    assert ["A", "B"][..1] == qa && |qa[..0]| == 0;
    RankScoresA(p1, p3);
    RankScoresB(p1, p2, p3);
    forall id: nat ensures RrfScore(hits, id) == RankScore([p1, p3], id) + RankScore([p2, p3, p1], id) {
      assert GroupsScore(qa, hits, id) == RankScore([p1, p3], id);
    }
  }

  lemma RankScoresA(p1: Point, p3: Point)
    requires p1.id == 1 && p3.id == 3
    ensures RankScore([p1, p3], 1) == 1.0 / 61.0
    ensures RankScore([p1, p3], 3) == 1.0 / 62.0
    ensures RankScore([p1, p3], 2) == 0.0
  {
    var s1 := [p1];
    var s2 := s1 + [p3];
    assert s2 == [p1, p3] && s2[..1] == s1 && |s1[..0]| == 0;
    assert Contribution(0) == 1.0 / 61.0 && Contribution(1) == 1.0 / 62.0;
    forall id: nat ensures RankScore(s2, id) == (if id == 1 then 1.0 / 61.0 else 0.0) + (if id == 3 then 1.0 / 62.0 else 0.0) {
      assert RankScore(s1, id) == (if id == 1 then 1.0 / 61.0 else 0.0);
    }
  }

  lemma RankScoresB(p1: Point, p2: Point, p3: Point)
    requires p1.id == 1 && p2.id == 2 && p3.id == 3
    ensures RankScore([p2, p3, p1], 1) == 1.0 / 63.0
    ensures RankScore([p2, p3, p1], 3) == 1.0 / 62.0
    ensures RankScore([p2, p3, p1], 2) == 1.0 / 61.0
  {
    var s1 := [p2];
    var s2 := s1 + [p3];
    var s3 := s2 + [p1];
    assert s3 == [p2, p3, p1] && s3[..2] == s2 && s2[..1] == s1 && |s1[..0]| == 0;
    assert Contribution(0) == 1.0 / 61.0 && Contribution(1) == 1.0 / 62.0 && Contribution(2) == 1.0 / 63.0;
    forall id: nat ensures RankScore(s2, id) == (if id == 2 then 1.0 / 61.0 else 0.0) + (if id == 3 then 1.0 / 62.0 else 0.0) {
      assert RankScore(s1, id) == (if id == 2 then 1.0 / 61.0 else 0.0);
    }
  }

  lemma FixtureEntries(u: seq<Entry>, hits: seq<Hit>, votes: seq<Vote>, p1: Point, p2: Point, p3: Point)
    requires IdsOf(u) == [1, 3, 2]
    requires forall k :: 0 <= k < |u| ==>
      && u[k].score == RrfScore(hits, u[k].point.id)
      && LastPointFor(votes, u[k].point.id) == Some(u[k].point)
    requires LastPointFor(votes, 1) == Some(p1) && LastPointFor(votes, 2) == Some(p2) && LastPointFor(votes, 3) == Some(p3)
    ensures u == [Entry(p1, RrfScore(hits, 1)), Entry(p3, RrfScore(hits, 3)), Entry(p2, RrfScore(hits, 2))]
  {
    assert u[0].point.id == 1 && u[1].point.id == 3 && u[2].point.id == 2;
  }

  lemma FixtureVotes(p1: Point, p2: Point, p3: Point, votes: seq<Vote>)
    requires p1.id == 1 && p2.id == 2 && p3.id == 3
    requires votes == [Vote(p1, 0), Vote(p3, 1), Vote(p2, 0), Vote(p3, 1), Vote(p1, 2)]
    ensures FirstSeen(votes) == [1, 3, 2]
    ensures LastPointFor(votes, 1) == Some(p1) && LastPointFor(votes, 2) == Some(p2) && LastPointFor(votes, 3) == Some(p3)
  {
    var v1 := [Vote(p1, 0)];
    var v2 := v1 + [Vote(p3, 1)];
    var v3 := v2 + [Vote(p2, 0)];
    var v4 := v3 + [Vote(p3, 1)];
    assert votes == v4 + [Vote(p1, 2)];
    assert votes[..4] == v4 && v4[..3] == v3 && v3[..2] == v2 && v2[..1] == v1 && |v1[..0]| == 0;
    assert FirstSeen(v1) == [1];
    assert FirstSeen(v2) == [1, 3];
    assert FirstSeen(v3) == [1, 3, 2];
    assert FirstSeen(v4) == [1, 3, 2];
    assert LastPointFor(v3, 2) == Some(p2);
    assert LastPointFor(v4, 2) == Some(p2);
  }

  lemma FixtureSort(e1: Entry, e2: Entry, e3: Entry)
    requires e1.score == 1.0 / 61.0 + 1.0 / 63.0 && e3.score == 1.0 / 62.0 + 1.0 / 62.0 && e2.score == 1.0 / 61.0
    ensures SortDesc([e1, e3, e2]) == [e1, e3, e2]
  {
    var s := [e1, e3, e2];
    assert SortedDesc(s) by {
      assert e1.score >= e3.score >= e2.score;
    }
    SortedIsFixed(s);
  }

  /** Sorting what is already in descending order changes nothing. */
  lemma {:induction false} SortedIsFixed(s: seq<Entry>)
    requires SortedDesc(s)
    ensures SortDesc(s) == s
    decreases |s|
  {
    if s != [] {
      var n := |s| - 1;
      SortedFront(s);
      SortedIsFixed(s[..n]);
      SortDescLast(s);
      InsertLast(s[n], s[..n]);
      FrontAndLast(s);
    }
  }

  lemma SortedFront(s: seq<Entry>)
    requires SortedDesc(s) && s != []
    ensures SortedDesc(s[..|s| - 1])
    ensures forall k :: 0 <= k < |s| - 1 ==> s[k].score >= s[|s| - 1].score
  {
  }

  lemma HeadAndTail<T>(s: seq<T>, x: T)
    requires s != []
    ensures [s[0]] + (s[1..] + [x]) == s + [x]
  {
  }

  lemma FrontAndLast<T>(s: seq<T>)
    requires s != []
    ensures s[..|s| - 1] + [s[|s| - 1]] == s
  {
  }

  /** Inserting an entry that scores no more than the last one appends it. */
  lemma {:induction false} InsertLast(e: Entry, s: seq<Entry>)
    requires forall k :: 0 <= k < |s| ==> s[k].score >= e.score
    ensures Insert(e, s) == s + [e]
    decreases |s|
  {
    if s != [] {
      InsertLast(e, s[1..]);
      InsertBehind(e, s);
      HeadAndTail(s, e);
    }
  }
}
