/**
 * The multi-period band dashboard (`BandDashboardPro` in
 * band-dashboard/band_dashboard_pro.py): per-period statistics built afresh
 * on every call, and the month-by-month trend. The month boundaries come
 * from calendar arithmetic on the clock; here they are the parameter
 * `bounds`, month `i` being the one that contains the day `30 * i` days ago.
 */
module BandDashboardPro {
  import opened Wrappers
  import opened BandPosts

  /** One member's `{'posts', 'comments', 'likes', 'score', 'first_post',
      'last_post'}`. */
  datatype Tally = Tally(
    posts: int, comments: int, likes: int, score: int,
    firstPost: Option<int>, lastPost: Option<int>)

  const Zero: Tally := Tally(0, 0, 0, 0, None, None)

  /** `member_stats`: its keys in insertion order, and the tallies. */
  datatype MemberTable = MemberTable(names: seq<string>, stats: map<string, Tally>)

  ghost predicate Valid(m: MemberTable) {
    && (forall i, j :: 0 <= i < j < |m.names| ==> m.names[i] != m.names[j])
    && (forall a :: a in m.names <==> a in m.stats)
  }

  function Lookup(m: MemberTable, a: string): Tally {
    if a in m.stats then m.stats[a] else Zero
  }

  // ---------------------------------------------------------------------------
  // the earliest and the latest post date

  function MinDate(posts: seq<Post>): (d: int)
    requires posts != []
  {
    if |posts| == 1 then CreatedAt(posts[0])
    else
      var d := MinDate(posts[..|posts| - 1]);
      if CreatedAt(posts[|posts| - 1]) < d then CreatedAt(posts[|posts| - 1]) else d
  }

  function MaxDate(posts: seq<Post>): (d: int)
    requires posts != []
  {
    if |posts| == 1 then CreatedAt(posts[0])
    else
      var d := MaxDate(posts[..|posts| - 1]);
      if CreatedAt(posts[|posts| - 1]) > d then CreatedAt(posts[|posts| - 1]) else d
  }

  /** The earliest date is a lower bound that some post attains, the latest
      an upper bound that some post attains. */
  lemma DatesSpec(posts: seq<Post>)
    requires posts != []
    ensures forall k :: 0 <= k < |posts| ==> MinDate(posts) <= CreatedAt(posts[k]) <= MaxDate(posts)
    ensures exists k :: 0 <= k < |posts| && CreatedAt(posts[k]) == MinDate(posts)
    ensures exists k :: 0 <= k < |posts| && CreatedAt(posts[k]) == MaxDate(posts)
  {
    MinDateSpec(posts);
    MaxDateSpec(posts);
  }

  lemma {:induction false} MinDateSpec(posts: seq<Post>)
    requires posts != []
    ensures forall k :: 0 <= k < |posts| ==> MinDate(posts) <= CreatedAt(posts[k])
    ensures exists k :: 0 <= k < |posts| && CreatedAt(posts[k]) == MinDate(posts)
  {
    if |posts| == 1 {
      assert CreatedAt(posts[0]) == MinDate(posts);
    } else {
      var init := posts[..|posts| - 1];
      var last := |posts| - 1;
      MinDateSpec(init);
      var i :| 0 <= i < |init| && CreatedAt(init[i]) == MinDate(init);
      assert init[i] == posts[i];
      forall k | 0 <= k < last ensures MinDate(posts) <= CreatedAt(posts[k]) {
        assert init[k] == posts[k];
      }
      if CreatedAt(posts[last]) < MinDate(init) {
        assert CreatedAt(posts[last]) == MinDate(posts);
      } else {
        assert CreatedAt(posts[i]) == MinDate(posts);
      }
    }
  }

  lemma {:induction false} MaxDateSpec(posts: seq<Post>)
    requires posts != []
    ensures forall k :: 0 <= k < |posts| ==> CreatedAt(posts[k]) <= MaxDate(posts)
    ensures exists k :: 0 <= k < |posts| && CreatedAt(posts[k]) == MaxDate(posts)
  {
    if |posts| == 1 {
      assert CreatedAt(posts[0]) == MaxDate(posts);
    } else {
      var init := posts[..|posts| - 1];
      var last := |posts| - 1;
      MaxDateSpec(init);
      var j :| 0 <= j < |init| && CreatedAt(init[j]) == MaxDate(init);
      assert init[j] == posts[j];
      forall k | 0 <= k < last ensures CreatedAt(posts[k]) <= MaxDate(posts) {
        assert init[k] == posts[k];
      }
      if CreatedAt(posts[last]) > MaxDate(init) {
        assert CreatedAt(posts[last]) == MaxDate(posts);
      } else {
        assert CreatedAt(posts[j]) == MaxDate(posts);
      }
    }
  }

  // ---------------------------------------------------------------------------
  // calculate_stats

  /** One turn of the loop of `calculate_stats` over the period's posts. */
  function Step(m: MemberTable, p: Post): MemberTable {
    var a := AuthorOf(p);
    var d := CreatedAt(p);
    var t := Lookup(m, a);
    var t' := t.(
      posts := t.posts + 1,
      likes := t.likes + Likes(p),
      comments := t.comments + Comments(p),
      firstPost := if t.firstPost.None? || d < t.firstPost.value then Some(d) else t.firstPost,
      lastPost := if t.lastPost.None? || d > t.lastPost.value then Some(d) else t.lastPost);
    MemberTable(if a in m.stats then m.names else m.names + [a], m.stats[a := t'])
  }

  /** The loop of `calculate_stats`, from a fresh `member_stats`. */
  function Aggregate(period: seq<Post>): MemberTable {
    if period == [] then MemberTable([], map[])
    else Step(Aggregate(period[..|period| - 1]), period[|period| - 1])
  }

  /** One more post is one more turn of the loop. */
  lemma AggregateSnoc(init: seq<Post>, p: Post)
    ensures Aggregate(init + [p]) == Step(Aggregate(init), p)
  {
    assert (init + [p])[..|init|] == init;
  }

  /** The body of the loop of `calculate_stats`: a first post adds a zeroed
      entry for its author, then the author's counts and dates take the post
      in. */
  method CountPost(names: seq<string>, stats: map<string, Tally>, p: Post)
    returns (names': seq<string>, stats': map<string, Tally>)
    ensures MemberTable(names', stats') == Step(MemberTable(names, stats), p)
  {
    names', stats' := names, stats;
    var a := AuthorOf(p);
    var d := CreatedAt(p);
    if a !in stats' {
      names' := names' + [a];
      stats' := stats'[a := Zero];
    }
    var t := stats'[a];
    assert t == Lookup(MemberTable(names, stats), a);
    t := t.(posts := t.posts + 1, likes := t.likes + Likes(p), comments := t.comments + Comments(p));
    var first := if t.firstPost.None? || d < t.firstPost.value then Some(d) else t.firstPost;
    var last := if t.lastPost.None? || d > t.lastPost.value then Some(d) else t.lastPost;
    stats' := stats'[a := t.(firstPost := first, lastPost := last)];
  }

  /** Every member's counts are those of that member's posts, the first and
      last post are the earliest and the latest of their dates, and the
      members are the authors in order of first appearance. */
  lemma AggregateSpec(period: seq<Post>, a: string)
    ensures var m := Aggregate(period);
      var mine := ByAuthor(period, a);
      && Valid(m)
      && m.names == Authors(period)
      && (a in m.stats <==> mine != [])
      && Lookup(m, a).posts == |mine|
      && Lookup(m, a).likes == SumLikes(mine)
      && Lookup(m, a).comments == SumComments(mine)
      && Lookup(m, a).score == 0
      && (mine == [] ==> Lookup(m, a).firstPost.None? && Lookup(m, a).lastPost.None?)
      && (mine != [] ==> Lookup(m, a).firstPost == Some(MinDate(mine))
                         && Lookup(m, a).lastPost == Some(MaxDate(mine)))
  {
    AggregateKeys(period);
    AggregateCounts(period, a);
    AggregateDates(period, a);
    ByAuthorEmpty(period, a);
  }

  /** The members are the authors, in order of first appearance. */
  lemma {:induction false} AggregateKeys(period: seq<Post>)
    ensures Valid(Aggregate(period)) && Aggregate(period).names == Authors(period)
  {
    if period != [] {
      AggregateKeys(period[..|period| - 1]);
    }
  }

  /** Someone has posts in the list exactly when they are one of its authors. */
  lemma {:induction false} ByAuthorEmpty(period: seq<Post>, a: string)
    ensures ByAuthor(period, a) != [] <==> a in Authors(period)
  {
    if period != [] {
      ByAuthorEmpty(period[..|period| - 1], a);
    }
  }

  lemma {:induction false} AggregateCounts(period: seq<Post>, a: string)
    ensures var t := Lookup(Aggregate(period), a);
      var mine := ByAuthor(period, a);
      && t.posts == |mine| && t.likes == SumLikes(mine)
      && t.comments == SumComments(mine) && t.score == 0
  {
    if period != [] {
      var init := period[..|period| - 1];
      var p := period[|period| - 1];
      AggregateCounts(init, a);
      var before := ByAuthor(init, a);
      var mine := ByAuthor(period, a);
      if AuthorOf(p) == a {
        assert mine == before + [p];
        assert mine[..|mine| - 1] == before && mine[|mine| - 1] == p;
      } else {
        assert mine == before + [];
        assert mine == before;
      }
    }
  }

  lemma {:induction false} AggregateDates(period: seq<Post>, a: string)
    ensures var t := Lookup(Aggregate(period), a);
      var mine := ByAuthor(period, a);
      && (mine == [] ==> t.firstPost.None? && t.lastPost.None?)
      && (mine != [] ==> t.firstPost == Some(MinDate(mine)) && t.lastPost == Some(MaxDate(mine)))
  {
    if period != [] {
      var init := period[..|period| - 1];
      var p := period[|period| - 1];
      AggregateDates(init, a);
      var before := ByAuthor(init, a);
      var mine := ByAuthor(period, a);
      if AuthorOf(p) == a {
        assert mine == before + [p];
        assert mine[..|mine| - 1] == before && mine[|mine| - 1] == p;
      } else {
        assert mine == before + [];
        assert mine == before;
      }
    }
  }

  /** A member's first post is never later than their last. */
  lemma FirstBeforeLast(period: seq<Post>, a: string)
    requires a in Aggregate(period).stats
    ensures var t := Aggregate(period).stats[a];
      t.firstPost.Some? && t.lastPost.Some? && t.firstPost.value <= t.lastPost.value
  {
    AggregateSpec(period, a);
    DatesSpec(ByAuthor(period, a));
  }

  function Rescore(t: Tally): Tally {
    t.(score := Score(t.posts, t.comments, t.likes))
  }

  /** The scoring loop of `calculate_stats`. */
  function Scored(m: MemberTable): MemberTable {
    MemberTable(m.names, map a | a in m.stats :: Rescore(m.stats[a]))
  }

  lemma ScoredSpec(m: MemberTable, a: string)
    ensures Scored(m).names == m.names && (a in Scored(m).stats <==> a in m.stats)
    ensures a in m.stats ==>
      var t := Scored(m).stats[a];
      && t == m.stats[a].(score := t.score)
      && t.score == 10 * t.posts + 3 * t.comments + t.likes
  {
  }

  /** The tallies after the scoring loop has visited the first `k` members. */
  function ScoredUpTo(m: MemberTable, k: nat): map<string, Tally>
    requires k <= |m.names|
  {
    map a | a in m.stats :: if a in m.names[..k] then Rescore(m.stats[a]) else m.stats[a]
  }

  /** One more turn of the scoring loop rescores the next member only. */
  lemma ScoredNext(m: MemberTable, k: nat)
    requires Valid(m) && k < |m.names|
    ensures m.names[k] in ScoredUpTo(m, k)
    ensures ScoredUpTo(m, k + 1)
         == ScoredUpTo(m, k)[m.names[k] := Rescore(ScoredUpTo(m, k)[m.names[k]])]
  {
    assert m.names[..k + 1] == m.names[..k] + [m.names[k]];
    assert m.names[k] !in m.names[..k];
  }

  /** Once every member is visited, the table is the scored one. */
  lemma ScoredAll(m: MemberTable)
    requires Valid(m)
    ensures MemberTable(m.names, ScoredUpTo(m, |m.names|)) == Scored(m)
  {
    assert m.names[..|m.names|] == m.names;
  }

  /** `total_stats` without the average. */
  datatype Totals = Totals(posts: int, likes: int, comments: int, activeMembers: int)

  datatype Stats = Stats(total: Totals, ranking: seq<(string, Tally)>)

  function ScoreOf(item: (string, Tally)): int {
    item.1.score
  }

  /** What `calculate_stats` returns for the posts and the cutoff. */
  function StatsOf(posts: seq<Post>, since: int): Stats {
    var period := InPeriod(posts, since);
    var m := Scored(Aggregate(period));
    Stats(Totals(|period|, SumLikes(period), SumComments(period), |m.names|),
          Top(Items(m.names, m.stats, Zero), ScoreOf, 20))
  }

  /** The totals count the posts of the period and their likes and comments;
      the active members are the distinct authors of the period. */
  lemma TotalsSpec(posts: seq<Post>, since: int)
    ensures var t := StatsOf(posts, since).total;
      var period := InPeriod(posts, since);
      && t.posts == |period|
      && t.likes == SumLikes(period)
      && t.comments == SumComments(period)
      && t.activeMembers == |Authors(period)|
      && t.posts == SumPosts(Scored(Aggregate(period)), Authors(period))
  {
    var period := InPeriod(posts, since);
    AggregateSpec(period, "");
    PostsAddUp(period);
  }

  /** The posts of the members listed in `names`. */
  function SumPosts(m: MemberTable, names: seq<string>): int {
    if names == [] then 0 else SumPosts(m, names[..|names| - 1]) + Lookup(m, names[|names| - 1]).posts
  }

  /** Only the members named count towards the sum. */
  lemma {:induction false} SumPostsFrame(m: MemberTable, m': MemberTable, names: seq<string>)
    requires forall k :: 0 <= k < |names| ==> Lookup(m, names[k]).posts == Lookup(m', names[k]).posts
    ensures SumPosts(m, names) == SumPosts(m', names)
  {
    if names != [] {
      SumPostsFrame(m, m', names[..|names| - 1]);
    }
  }

  /** Raising one listed member's posts by one raises the sum by one. */
  lemma {:induction false} SumPostsBump(m: MemberTable, m': MemberTable, names: seq<string>, a: string)
    requires forall i, j :: 0 <= i < j < |names| ==> names[i] != names[j]
    requires a in names
    requires Lookup(m', a).posts == Lookup(m, a).posts + 1
    requires forall b :: b != a ==> Lookup(m', b).posts == Lookup(m, b).posts
    ensures SumPosts(m', names) == SumPosts(m, names) + 1
  {
    var init := names[..|names| - 1];
    var last := names[|names| - 1];
    if last == a {
      assert a !in init;
      SumPostsFrame(m, m', init);
    } else {
      assert a in init;
      SumPostsBump(m, m', init, a);
    }
  }

  /** Every post of the period is some member's: the members' posts add up
      to the period's. */
  lemma PostsAddUp(period: seq<Post>)
    ensures SumPosts(Aggregate(period), Authors(period)) == |period|
    ensures SumPosts(Scored(Aggregate(period)), Authors(period)) == |period|
  {
    AggregatePostsAddUp(period);
    ScoredPosts(Aggregate(period), Authors(period));
  }

  lemma {:induction false} AggregatePostsAddUp(period: seq<Post>)
    ensures SumPosts(Aggregate(period), Authors(period)) == |period|
  {
    if period != [] {
      var init := period[..|period| - 1];
      var p := period[|period| - 1];
      assert init + [p] == period;
      AggregatePostsAddUp(init);
      PostsStep(init, p);
    }
  }

  /** One more post adds one to the members' posts. */
  lemma PostsStep(init: seq<Post>, p: Post)
    ensures SumPosts(Aggregate(init + [p]), Authors(init + [p]))
         == SumPosts(Aggregate(init), Authors(init)) + 1
  {
    var period := init + [p];
    assert period[..|period| - 1] == init && period[|period| - 1] == p;
    var a := AuthorOf(p);
    var m := Aggregate(init);
    var m' := Aggregate(period);
    AggregateKeys(init);
    AggregateKeys(period);
    assert m' == Step(m, p);
    if a in m.stats {
      SumPostsBump(m, m', Authors(init), a);
    } else {
      SumPostsFrame(m, m', Authors(init));
      assert Authors(period) == Authors(init) + [a];
      assert Authors(period)[..|Authors(period)| - 1] == Authors(init);
    }
  }

  /** Scoring leaves the posts alone. */
  lemma ScoredPosts(m: MemberTable, names: seq<string>)
    ensures SumPosts(Scored(m), names) == SumPosts(m, names)
  {
    forall k | 0 <= k < |names| ensures Lookup(m, names[k]).posts == Lookup(Scored(m), names[k]).posts {
      ScoredSpec(m, names[k]);
    }
    SumPostsFrame(m, Scored(m), names);
  }

  /** The ranking lists at most twenty members, best first, ties in the
      order the members first posted. */
  lemma RankingSpec(posts: seq<Post>, since: int)
    ensures var m := Scored(Aggregate(InPeriod(posts, since)));
      var r := StatsOf(posts, since).ranking;
      && |r| == (if |m.names| <= 20 then |m.names| else 20)
      && Descending(r, ScoreOf)
      && r == SortDesc(Items(m.names, m.stats, Zero), ScoreOf)[..|r|]
      && (forall v :: WithKey(SortDesc(Items(m.names, m.stats, Zero), ScoreOf), ScoreOf, v)
                       == WithKey(Items(m.names, m.stats, Zero), ScoreOf, v))
  {
    var m := Scored(Aggregate(InPeriod(posts, since)));
    TopSpec(Items(m.names, m.stats, Zero), ScoreOf, 20);
    SortDescSpec(Items(m.names, m.stats, Zero), ScoreOf);
  }

  // ---------------------------------------------------------------------------
  // get_monthly_trend

  /** The name `'%Y-%m'` of one month and the bounds of its dates, both
      included; the caller computes them from the calendar. */
  datatype MonthBounds = MonthBounds(month: string, first: int, last: int)

  datatype MonthEntry = MonthEntry(month: string, posts: int, activeMembers: int, likes: int)

  predicate InMonth(p: Post, b: MonthBounds) {
    b.first <= CreatedAt(p) <= b.last
  }

  /** The posts dated inside the month, bounds included. */
  function MonthPosts(posts: seq<Post>, b: MonthBounds): (r: seq<Post>)
    ensures |r| <= |posts|
    ensures forall k :: 0 <= k < |r| ==> InMonth(r[k], b)
  {
    if posts == [] then []
    else
      var p := posts[|posts| - 1];
      MonthPosts(posts[..|posts| - 1], b) + (if InMonth(p, b) then [p] else [])
  }

  /** The month filter keeps exactly the posts dated inside the month, each
      in its own place: one post is kept exactly when it is inside, and
      filtering a concatenation concatenates the filtered parts. */
  lemma MonthPostsSpec(posts: seq<Post>, b: MonthBounds)
    ensures forall p :: p in MonthPosts(posts, b) <==> p in posts && InMonth(p, b)
    ensures forall p :: MonthPosts([p], b) == if InMonth(p, b) then [p] else []
    ensures forall rest :: MonthPosts(posts + rest, b) == MonthPosts(posts, b) + MonthPosts(rest, b)
  {
    MonthPostsMembers(posts, b);
    forall p ensures MonthPosts([p], b) == if InMonth(p, b) then [p] else [] {
      assert [p][..0] == [];
    }
    forall rest ensures MonthPosts(posts + rest, b) == MonthPosts(posts, b) + MonthPosts(rest, b) {
      MonthPostsConcat(posts, rest, b);
    }
  }

  lemma {:induction false} MonthPostsMembers(posts: seq<Post>, b: MonthBounds)
    ensures forall p :: p in MonthPosts(posts, b) <==> p in posts && InMonth(p, b)
  {
    if posts != [] {
      var init := posts[..|posts| - 1];
      MonthPostsMembers(init, b);
      assert posts == init + [posts[|posts| - 1]];
    }
  }

  lemma {:induction false} MonthPostsConcat(a: seq<Post>, c: seq<Post>, b: MonthBounds)
    ensures MonthPosts(a + c, b) == MonthPosts(a, b) + MonthPosts(c, b)
  {
    if c == [] {
      assert a + c == a;
    } else {
      var init := c[..|c| - 1];
      MonthPostsConcat(a, init, b);
      assert (a + c)[..|a + c| - 1] == a + init;
      Text.ConcatAssoc(MonthPosts(a, b), MonthPosts(init, b),
                       if InMonth(c[|c| - 1], b) then [c[|c| - 1]] else []);
    }
  }

  /** `set(p.get('author') for p in posts)`: a post without an author adds
      `None`. */
  function AuthorSet(posts: seq<Post>): (r: set<Option<string>>)
    ensures |r| <= |posts|
    ensures r == set p | p in posts :: p.author
  {
    if posts == [] then {}
    else
      var init := posts[..|posts| - 1];
      assert posts == init + [posts[|posts| - 1]];
      AuthorSet(init) + {posts[|posts| - 1].author}
  }

  /** One month of `get_monthly_trend`: its name, how many posts are dated
      inside it, how many distinct authors wrote them (a missing author
      counted as one), and their likes. */
  function MonthEntryOf(posts: seq<Post>, b: MonthBounds): (e: MonthEntry)
    ensures e.month == b.month
    ensures e.posts == |MonthPosts(posts, b)| && e.likes == SumLikes(MonthPosts(posts, b))
    ensures e.activeMembers == |set p | p in posts && InMonth(p, b) :: p.author|
    ensures e.activeMembers <= e.posts
  {
    var ms := MonthPosts(posts, b);
    MonthPostsMembers(posts, b);
    assert (set p | p in ms :: p.author) == (set p | p in posts && InMonth(p, b) :: p.author);
    MonthEntry(b.month, |ms|, |AuthorSet(ms)|, SumLikes(ms))
  }

  /** `list(reversed(s))` */
  function Reversed<T>(s: seq<T>): (r: seq<T>)
    ensures |r| == |s| && forall k :: 0 <= k < |s| ==> r[k] == s[|s| - 1 - k]
  {
    if s == [] then [] else Reversed(s[1..]) + [s[0]]
  }

  class DashboardPro {
    var posts: seq<Post>

    constructor ()
      ensures posts == []
    {
      posts := [];
    }

    /** `calculate_stats(days)` without the period label; `since` is
        `datetime.now() - timedelta(days)`. It depends on nothing but the
        posts and the cutoff, so calling it again gives the same answer. */
    method CalculateStats(since: int) returns (r: Stats)
      ensures r == StatsOf(posts, since)
    {
      var period := InPeriod(posts, since);
      var names: seq<string> := [];
      var stats: map<string, Tally> := map[];
      for i := 0 to |period|
        invariant MemberTable(names, stats) == Aggregate(period[..i])
      {
        AggregateSnoc(period[..i], period[i]);
        assert period[..i + 1] == period[..i] + [period[i]];
        names, stats := CountPost(names, stats, period[i]);
      }
      assert period[..|period|] == period;
      AggregateKeys(period);
      ghost var m1 := MemberTable(names, stats);
      for k := 0 to |names|
        invariant names == m1.names
        invariant stats == ScoredUpTo(m1, k)
      {
        ScoredNext(m1, k);
        var a := names[k];
        stats := stats[a := Rescore(stats[a])];
      }
      ScoredAll(m1);
      var m := MemberTable(names, stats);
      var total := Totals(|period|, SumLikes(period), SumComments(period), |names|);
      r := Stats(total, Top(Items(m.names, m.stats, Zero), ScoreOf, 20));
    }

    /** `get_monthly_trend(months)`: one entry a month, oldest first. */
    method GetMonthlyTrend(months: int, bounds: nat -> MonthBounds) returns (trend: seq<MonthEntry>)
      ensures |trend| == (if months < 0 then 0 else months)
      ensures forall k :: 0 <= k < |trend| ==> trend[k] == MonthEntryOf(posts, bounds(|trend| - 1 - k))
      ensures forall k :: 0 <= k < |trend| ==> trend[k].activeMembers <= trend[k].posts
    {
      var n := if months < 0 then 0 else months;
      var monthly: seq<MonthEntry> := [];
      for i := 0 to n
        invariant |monthly| == i
        invariant forall j :: 0 <= j < i ==> monthly[j] == MonthEntryOf(posts, bounds(j))
      {
        var b := bounds(i);
        var monthPosts := MonthPosts(posts, b);
        var authors := AuthorSet(monthPosts);
        monthly := monthly + [MonthEntry(b.month, |monthPosts|, |authors|, SumLikes(monthPosts))];
      }
      trend := Reversed(monthly);
    }
  }
}
