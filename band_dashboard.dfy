/**
 * The simple band dashboard (`BandDashboard` in
 * band-dashboard/band_dashboard.py). Its `members` dictionary lives as long
 * as the dashboard: every call of `calculate_ranking` adds the posts of the
 * window to the totals already there, rewrites every member's score and
 * returns the ten best members.
 */
module BandDashboard {
  import opened BandPosts

  /** One member's `{'posts', 'comments', 'likes', 'score'}`. */
  datatype Tally = Tally(posts: int, comments: int, likes: int, score: int)

  /** What the defaultdict hands out for a new author. */
  const Zero: Tally := Tally(0, 0, 0, 0)

  /** The members dictionary: its keys in insertion order, and the tallies. */
  datatype MemberTable = MemberTable(names: seq<string>, stats: map<string, Tally>)

  /** Every key is listed once, and only keys are listed. */
  ghost predicate Valid(m: MemberTable) {
    && (forall i, j :: 0 <= i < j < |m.names| ==> m.names[i] != m.names[j])
    && (forall a :: a in m.names <==> a in m.stats)
  }

  /** `self.members[author]`, which creates a zero tally when it is missing. */
  function Lookup(m: MemberTable, a: string): Tally {
    if a in m.stats then m.stats[a] else Zero
  }

  /** The three additions for one post of `author`. */
  function AddPost(t: Tally, p: Post): Tally {
    t.(posts := t.posts + 1, likes := t.likes + Likes(p), comments := t.comments + Comments(p))
  }

  /** One turn of the first loop of `calculate_ranking`. */
  function Step(m: MemberTable, p: Post, since: int): MemberTable {
    if !InWindow(p, since) then m
    else
      var a := AuthorOf(p);
      MemberTable(if a in m.stats then m.names else m.names + [a], m.stats[a := AddPost(Lookup(m, a), p)])
  }

  /** The first loop of `calculate_ranking` over `posts`. */
  function Accumulate(m: MemberTable, posts: seq<Post>, since: int): MemberTable {
    if posts == [] then m
    else Step(Accumulate(m, posts[..|posts| - 1], since), posts[|posts| - 1], since)
  }

  lemma StepSpec(m: MemberTable, p: Post, since: int, a: string)
    requires Valid(m)
    ensures var m' := Step(m, p, since);
      var hit := InWindow(p, since) && AuthorOf(p) == a;
      && Valid(m')
      && (a in m'.stats <==> a in m.stats || hit)
      && Lookup(m', a).posts == Lookup(m, a).posts + (if hit then 1 else 0)
      && Lookup(m', a).likes == Lookup(m, a).likes + (if hit then Likes(p) else 0)
      && Lookup(m', a).comments == Lookup(m, a).comments + (if hit then Comments(p) else 0)
      && Lookup(m', a).score == Lookup(m, a).score
      && m.names <= m'.names
  {
  }

  /** After the first loop every member's totals are the old ones plus the
      contributions of that member's posts inside the window; new members
      are exactly the authors of such posts, appended after the old ones. */
  lemma {:induction false} AccumulateSpec(m: MemberTable, posts: seq<Post>, since: int, a: string)
    requires Valid(m)
    ensures var m' := Accumulate(m, posts, since);
      var mine := ByAuthor(InPeriod(posts, since), a);
      && Valid(m')
      && (a in m'.stats <==> a in m.stats || Wrote(InPeriod(posts, since), a))
      && Lookup(m', a).posts == Lookup(m, a).posts + |mine|
      && Lookup(m', a).likes == Lookup(m, a).likes + SumLikes(mine)
      && Lookup(m', a).comments == Lookup(m, a).comments + SumComments(mine)
      && Lookup(m', a).score == Lookup(m, a).score
      && m.names <= m'.names
  {
    if posts != [] {
      var init := posts[..|posts| - 1];
      AccumulateSpec(m, init, since, a);
      StepSpec(Accumulate(m, init, since), posts[|posts| - 1], since, a);
      WindowSnoc(posts, since, a);
    }
  }

  /** What the last post adds to the window's posts by `a`. */
  lemma WindowSnoc(posts: seq<Post>, since: int, a: string)
    requires posts != []
    ensures var p := posts[|posts| - 1];
      var hit := InWindow(p, since) && AuthorOf(p) == a;
      var mine := ByAuthor(InPeriod(posts, since), a);
      var mine0 := ByAuthor(InPeriod(posts[..|posts| - 1], since), a);
      && (Wrote(InPeriod(posts, since), a) <==> Wrote(InPeriod(posts[..|posts| - 1], since), a) || hit)
      && |mine| == |mine0| + (if hit then 1 else 0)
      && SumLikes(mine) == SumLikes(mine0) + (if hit then Likes(p) else 0)
      && SumComments(mine) == SumComments(mine0) + (if hit then Comments(p) else 0)
  {
    var init := posts[..|posts| - 1];
    var p := posts[|posts| - 1];
    var period := InPeriod(posts, since);
    var before := InPeriod(init, since);
    if InWindow(p, since) {
      assert period == before + [p];
      assert period[..|period| - 1] == before && period[|period| - 1] == p;
      WroteSnoc(period, a);
      var mine := ByAuthor(period, a);
      assert mine == ByAuthor(before, a) + (if AuthorOf(p) == a then [p] else []);
      if AuthorOf(p) == a {
        assert mine[..|mine| - 1] == ByAuthor(before, a) && mine[|mine| - 1] == p;
      } else {
        assert mine == ByAuthor(before, a);
      }
    } else {
      assert period == before + [];
      assert before + [] == before;
    }
  }

  /** The score rule applied to one tally. */
  function Rescore(t: Tally): Tally {
    t.(score := Score(t.posts, t.comments, t.likes))
  }

  /** The second loop of `calculate_ranking`. */
  function Scored(m: MemberTable): MemberTable {
    MemberTable(m.names, map a | a in m.stats :: Rescore(m.stats[a]))
  }

  /** Scoring touches no count and no key, and leaves every member with
      ten points a post, three a comment and one a like. */
  lemma ScoredSpec(m: MemberTable, a: string)
    requires Valid(m)
    ensures Valid(Scored(m)) && Scored(m).names == m.names
    ensures a in Scored(m).stats <==> a in m.stats
    ensures var t := Lookup(Scored(m), a);
      a in m.stats ==>
        && t.posts == m.stats[a].posts && t.likes == m.stats[a].likes
        && t.comments == m.stats[a].comments
        && t.score == 10 * t.posts + 3 * t.comments + t.likes
  {
  }

  function ScoreOf(item: (string, Tally)): int {
    item.1.score
  }

  /** `sorted(self.members.items(), key=score, reverse=True)[:10]` */
  function Ranking(m: MemberTable): seq<(string, Tally)> {
    Top(Items(m.names, m.stats, Zero), ScoreOf, 10)
  }

  /** The ranking lists at most ten members, best first; equal scores keep
      insertion order, and every member left out scores no more than any
      member listed. */
  lemma RankingSpec(m: MemberTable)
    ensures var r := Ranking(m);
      && |r| == (if |m.names| <= 10 then |m.names| else 10)
      && Descending(r, ScoreOf)
      && r == SortDesc(Items(m.names, m.stats, Zero), ScoreOf)[..|r|]
      && (forall v :: WithKey(SortDesc(Items(m.names, m.stats, Zero), ScoreOf), ScoreOf, v)
                       == WithKey(Items(m.names, m.stats, Zero), ScoreOf, v))
      && (forall i, k :: 0 <= i < |r| <= k < |m.names| ==>
            ScoreOf(SortDesc(Items(m.names, m.stats, Zero), ScoreOf)[k]) <= ScoreOf(r[i]))
  {
    TopSpec(Items(m.names, m.stats, Zero), ScoreOf, 10);
    SortDescSpec(Items(m.names, m.stats, Zero), ScoreOf);
  }

  /** Each entry of the ranking is a member with its own tally. */
  lemma RankingMembers(m: MemberTable)
    ensures forall k :: 0 <= k < |Ranking(m)| ==>
              Ranking(m)[k].0 in m.names && Ranking(m)[k].1 == Lookup(m, Ranking(m)[k].0)
  {
    var r := Ranking(m);
    var sorted := SortDesc(Items(m.names, m.stats, Zero), ScoreOf);
    TopSpec(Items(m.names, m.stats, Zero), ScoreOf, 10);
    forall k | 0 <= k < |r| ensures r[k].0 in m.names && r[k].1 == Lookup(m, r[k].0) {
      assert r[k] == sorted[k];
      assert sorted[k] in multiset(Items(m.names, m.stats, Zero));
      var j :| 0 <= j < |Items(m.names, m.stats, Zero)| && Items(m.names, m.stats, Zero)[j] == sorted[k];
    }
  }

  /** One whole call, counts and scores: what `calculate_ranking` leaves in
      `self.members`. */
  function AfterRanking(m: MemberTable, posts: seq<Post>, since: int): MemberTable {
    Scored(Accumulate(m, posts, since))
  }

  /** The totals outlive the call: running the ranking twice over the same
      posts counts every post of the window twice. */
  lemma RankingTwice(m: MemberTable, posts: seq<Post>, since: int, a: string)
    requires Valid(m)
    ensures var once := AfterRanking(m, posts, since);
      var twice := AfterRanking(once, posts, since);
      var mine := ByAuthor(InPeriod(posts, since), a);
      && Lookup(twice, a).posts == Lookup(m, a).posts + 2 * |mine|
      && Lookup(twice, a).likes == Lookup(m, a).likes + 2 * SumLikes(mine)
      && Lookup(twice, a).comments == Lookup(m, a).comments + 2 * SumComments(mine)
  {
    var acc := Accumulate(m, posts, since);
    AccumulateSpec(m, posts, since, a);
    ScoredSpec(acc, a);
    var once := Scored(acc);
    AccumulateSpec(once, posts, since, a);
    ScoredSpec(Accumulate(once, posts, since), a);
  }

  class Dashboard {
    var posts: seq<Post>
    var names: seq<string>
    var stats: map<string, Tally>

    function Members(): MemberTable
      reads this
    {
      MemberTable(names, stats)
    }

    /** `BandDashboard()`: no posts and no members. */
    constructor ()
      ensures posts == [] && Members() == MemberTable([], map[])
      ensures Valid(Members())
    {
      posts := [];
      names := [];
      stats := map[];
    }

    /** `calculate_ranking`; `since` is `datetime.now() - timedelta(days)`. */
    method CalculateRanking(since: int) returns (ranking: seq<(string, Tally)>)
      requires Valid(Members())
      modifies this
      ensures posts == old(posts)
      ensures Members() == AfterRanking(old(Members()), posts, since)
      ensures Valid(Members())
      ensures ranking == Ranking(Members())
    {
      AddWindowPosts(since);
      RescoreAll();
      ranking := Ranking(Members());
    }

    /** The first loop of `calculate_ranking`: each post inside the window
        is added to its author's totals. */
    method AddWindowPosts(since: int)
      requires Valid(Members())
      modifies this
      ensures posts == old(posts)
      ensures Members() == Accumulate(old(Members()), posts, since)
      ensures Valid(Members())
    {
      ghost var m0 := Members();
      var all := posts;
      for i := 0 to |all|
        invariant posts == all
        invariant Members() == Accumulate(m0, all[..i], since)
        invariant Valid(Members())
      {
        var p := all[i];
        assert all[..i + 1] == all[..i] + [p];
        StepSpec(Members(), p, since, AuthorOf(p));
        if InWindow(p, since) {
          var a := AuthorOf(p);
          if a !in stats {
            names := names + [a];
            stats := stats[a := Zero];
          }
          stats := stats[a := AddPost(stats[a], p)];
        }
      }
      assert all[..|all|] == all;
    }

    /** The second loop of `calculate_ranking`: every member's score is
        rewritten from their totals. */
    method RescoreAll()
      requires Valid(Members())
      modifies this
      ensures posts == old(posts)
      ensures Members() == Scored(old(Members()))
    {
      ghost var m1 := Members();
      for k := 0 to |names|
        invariant posts == old(posts)
        invariant names == m1.names && stats.Keys == m1.stats.Keys
        invariant forall j :: 0 <= j < k ==> stats[names[j]] == Rescore(m1.stats[names[j]])
        invariant forall j :: k <= j < |names| ==> stats[names[j]] == m1.stats[names[j]]
      {
        var a := names[k];
        stats := stats[a := Rescore(stats[a])];
      }
      forall a | a in stats ensures stats[a] == Scored(m1).stats[a] {
        var j :| 0 <= j < |names| && names[j] == a;
      }
      assert stats == Scored(m1).stats;
    }
  }
}
