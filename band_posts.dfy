/**
 * What the two band dashboards (band-dashboard/band_dashboard.py and
 * band-dashboard/band_dashboard_pro.py) share: the post records they read
 * with `dict.get` defaults, the activity score, and Python's stable
 * `sorted(..., key=score, reverse=True)` followed by a top-N slice.
 * Timestamps are whole seconds; the cutoff `datetime.now() - timedelta(days)`
 * is the parameter `since`.
 */
module BandPosts {
  import opened Wrappers
  import Text

  /** A post as the band API returns it; every key may be missing. */
  datatype Post = Post(
    createdAt: Option<int>,
    author: Option<string>,
    likeCount: Option<int>,
    commentCount: Option<int>)

  /** `post.get('created_at', 0)` */
  function CreatedAt(p: Post): int {
    p.createdAt.GetOr(0)
  }

  /** `post.get('author', 'Unknown')` */
  function AuthorOf(p: Post): string {
    p.author.GetOr("Unknown")
  }

  /** `post.get('like_count', 0)` */
  function Likes(p: Post): int {
    p.likeCount.GetOr(0)
  }

  /** `post.get('comment_count', 0)` */
  function Comments(p: Post): int {
    p.commentCount.GetOr(0)
  }

  /** `datetime.fromtimestamp(created_at) >= since` */
  predicate InWindow(p: Post, since: int) {
    CreatedAt(p) >= since
  }

  /** Ten points a post, three a comment, one a like. */
  function Score(posts: int, comments: int, likes: int): int {
    posts * 10 + comments * 3 + likes * 1
  }

  /** `d.items()` of a per-author dictionary kept as its keys in insertion
      order and the map behind them; a listed key the map lacks shows `zero`,
      as a defaultdict would. */
  function Items<T>(names: seq<string>, stats: map<string, T>, zero: T): (r: seq<(string, T)>)
    ensures |r| == |names|
    ensures forall k :: 0 <= k < |r| ==>
      r[k] == (names[k], if names[k] in stats then stats[names[k]] else zero)
  {
    seq(|names|, k requires 0 <= k < |names| => (names[k], if names[k] in stats then stats[names[k]] else zero))
  }

  // ---------------------------------------------------------------------------
  // per-author sums over a list of posts

  /** The posts of the window, in their original order. */
  function InPeriod(posts: seq<Post>, since: int): (r: seq<Post>)
    ensures |r| <= |posts|
    ensures forall k :: 0 <= k < |r| ==> InWindow(r[k], since)
  {
    if posts == [] then []
    else InPeriod(posts[..|posts| - 1], since)
         + (if InWindow(posts[|posts| - 1], since) then [posts[|posts| - 1]] else [])
  }

  /** The window filter keeps exactly the posts dated at or after `since`,
      each kept post in its own place: one post is kept exactly when it is
      in the window, and filtering a concatenation concatenates the
      filtered parts. */
  lemma InPeriodSpec(posts: seq<Post>, since: int)
    ensures forall p :: p in InPeriod(posts, since) <==> p in posts && InWindow(p, since)
    ensures forall p :: InPeriod([p], since) == if InWindow(p, since) then [p] else []
    ensures forall rest :: InPeriod(posts + rest, since) == InPeriod(posts, since) + InPeriod(rest, since)
  {
    InPeriodMembers(posts, since);
    forall p ensures InPeriod([p], since) == if InWindow(p, since) then [p] else [] {
      assert [p][..0] == [];
    }
    forall rest ensures InPeriod(posts + rest, since) == InPeriod(posts, since) + InPeriod(rest, since) {
      InPeriodConcat(posts, rest, since);
    }
  }

  lemma {:induction false} InPeriodMembers(posts: seq<Post>, since: int)
    ensures forall p :: p in InPeriod(posts, since) <==> p in posts && InWindow(p, since)
  {
    if posts != [] {
      var init := posts[..|posts| - 1];
      InPeriodMembers(init, since);
      assert posts == init + [posts[|posts| - 1]];
    }
  }

  lemma {:induction false} InPeriodConcat(a: seq<Post>, b: seq<Post>, since: int)
    ensures InPeriod(a + b, since) == InPeriod(a, since) + InPeriod(b, since)
  {
    if b == [] {
      assert a + b == a;
    } else {
      var init := b[..|b| - 1];
      InPeriodConcat(a, init, since);
      assert (a + b)[..|a + b| - 1] == a + init;
      Text.ConcatAssoc(InPeriod(a, since), InPeriod(init, since),
                       if InWindow(b[|b| - 1], since) then [b[|b| - 1]] else []);
    }
  }

  /** The posts of `author`. */
  function ByAuthor(posts: seq<Post>, author: string): (r: seq<Post>)
    ensures |r| <= |posts|
    ensures forall k :: 0 <= k < |r| ==> AuthorOf(r[k]) == author
  {
    if posts == [] then []
    else ByAuthor(posts[..|posts| - 1], author)
         + (if AuthorOf(posts[|posts| - 1]) == author then [posts[|posts| - 1]] else [])
  }

  /** `sum(p.get('like_count', 0) for p in posts)` */
  function SumLikes(posts: seq<Post>): int {
    if posts == [] then 0 else SumLikes(posts[..|posts| - 1]) + Likes(posts[|posts| - 1])
  }

  /** `sum(p.get('comment_count', 0) for p in posts)` */
  function SumComments(posts: seq<Post>): int {
    if posts == [] then 0 else SumComments(posts[..|posts| - 1]) + Comments(posts[|posts| - 1])
  }

  /** Some post of the list is by `a`. */
  predicate Wrote(posts: seq<Post>, a: string) {
    exists k :: 0 <= k < |posts| && AuthorOf(posts[k]) == a
  }

  lemma WroteSnoc(posts: seq<Post>, a: string)
    requires posts != []
    ensures Wrote(posts, a) <==> Wrote(posts[..|posts| - 1], a) || AuthorOf(posts[|posts| - 1]) == a
  {
    if Wrote(posts[..|posts| - 1], a) {
      var k :| 0 <= k < |posts| - 1 && AuthorOf(posts[..|posts| - 1][k]) == a;
      assert AuthorOf(posts[k]) == a;
    }
    if Wrote(posts, a) && AuthorOf(posts[|posts| - 1]) != a {
      var k :| 0 <= k < |posts| && AuthorOf(posts[k]) == a;
      assert posts[..|posts| - 1][k] == posts[k];
    }
  }

  /** The authors of `posts`, each once, in order of first appearance. */
  function Authors(posts: seq<Post>): (r: seq<string>)
    ensures forall i, j :: 0 <= i < j < |r| ==> r[i] != r[j]
    ensures forall a :: a in r <==> Wrote(posts, a)
  {
    if posts == [] then []
    else
      var r := Authors(posts[..|posts| - 1]);
      var a := AuthorOf(posts[|posts| - 1]);
      assert forall b :: Wrote(posts, b) <==> Wrote(posts[..|posts| - 1], b) || a == b by {
        forall b ensures Wrote(posts, b) <==> Wrote(posts[..|posts| - 1], b) || a == b {
          WroteSnoc(posts, b);
        }
      }
      if a in r then r else r + [a]
  }

  // ---------------------------------------------------------------------------
  // sorted(items, key=score, reverse=True)[:n]

  /** Places `x` after every element whose key is at least its own. */
  function Insert<T>(x: T, r: seq<T>, key: T -> int): (r': seq<T>)
    ensures |r'| == |r| + 1
    ensures multiset(r') == multiset(r) + multiset{x}
  {
    if r == [] then [x]
    else if key(r[0]) >= key(x) then
      assert r == [r[0]] + r[1..];
      [r[0]] + Insert(x, r[1..], key)
    else [x] + r
  }

  /** Python's `sorted` with `reverse=True`: a stable sort by descending key. */
  function SortDesc<T>(s: seq<T>, key: T -> int): (r: seq<T>)
    ensures |r| == |s|
    ensures multiset(r) == multiset(s)
  {
    if s == [] then []
    else
      assert s == s[..|s| - 1] + [s[|s| - 1]];
      Insert(s[|s| - 1], SortDesc(s[..|s| - 1], key), key)
  }

  predicate Descending<T>(r: seq<T>, key: T -> int) {
    forall i, j :: 0 <= i < j < |r| ==> key(r[i]) >= key(r[j])
  }

  /** The elements whose key is `v`, in order. */
  function WithKey<T>(s: seq<T>, key: T -> int, v: int): seq<T> {
    if s == [] then [] else (if key(s[0]) == v then [s[0]] else []) + WithKey(s[1..], key, v)
  }

  lemma {:induction false} WithKeyConcat<T>(a: seq<T>, b: seq<T>, key: T -> int, v: int)
    ensures WithKey(a + b, key, v) == WithKey(a, key, v) + WithKey(b, key, v)
  {
    if a == [] {
      assert a + b == b;
    } else {
      var h := if key(a[0]) == v then [a[0]] else [];
      assert (a + b)[0] == a[0] && (a + b)[1..] == a[1..] + b;
      assert WithKey(a + b, key, v) == h + WithKey(a[1..] + b, key, v);
      WithKeyConcat(a[1..], b, key, v);
      assert WithKey(a, key, v) == h + WithKey(a[1..], key, v);
    }
  }

  lemma {:induction false} WithKeyNone<T>(s: seq<T>, key: T -> int, v: int)
    requires forall k :: 0 <= k < |s| ==> key(s[k]) < v
    ensures WithKey(s, key, v) == []
  {
    if s != [] {
      WithKeyNone(s[1..], key, v);
    }
  }

  /** Every element of a descending list has a key no larger than its head. */
  lemma HeadIsLargest<T>(r: seq<T>, key: T -> int, y: T)
    requires r != [] && Descending(r, key) && y in r
    ensures key(y) <= key(r[0])
  {
    var k :| 0 <= k < |r| && r[k] == y;
    if k > 0 {
      assert key(r[0]) >= key(r[k]);
    }
  }

  /** Inserting into a descending list keeps it descending. */
  lemma {:induction false} InsertDescending<T>(x: T, r: seq<T>, key: T -> int)
    requires Descending(r, key)
    ensures Descending(Insert(x, r, key), key)
  {
    if r != [] {
      var out := Insert(x, r, key);
      if key(r[0]) >= key(x) {
        var rest := Insert(x, r[1..], key);
        DescendingTail(r, key);
        InsertDescending(x, r[1..], key);
        assert out == [r[0]] + rest;
        forall i, j | 0 <= i < j < |out| ensures key(out[i]) >= key(out[j]) {
          if i == 0 {
            var y := rest[j - 1];
            assert y in multiset(rest);
            if y != x {
              assert y in multiset(r[1..]);
              assert y in r[1..];
              assert y in r;
              HeadIsLargest(r, key, y);
            }
          } else {
            assert out[i] == rest[i - 1] && out[j] == rest[j - 1];
          }
        }
      } else {
        assert out == [x] + r;
        forall i, j | 0 <= i < j < |out| ensures key(out[i]) >= key(out[j]) {
          if i == 0 {
            assert out[j] == r[j - 1];
            HeadIsLargest(r, key, r[j - 1]);
          } else {
            assert out[i] == r[i - 1] && out[j] == r[j - 1];
          }
        }
      }
    }
  }

  /** Inserting into a descending list puts the new element after every
      element with the same key. */
  lemma {:induction false} InsertWithKey<T>(x: T, r: seq<T>, key: T -> int, v: int)
    requires Descending(r, key)
    ensures WithKey(Insert(x, r, key), key, v) == WithKey(r, key, v) + (if key(x) == v then [x] else [])
  {
    if r != [] {
      if key(r[0]) >= key(x) {
        DescendingTail(r, key);
        InsertWithKey(x, r[1..], key, v);
        InsertBehindHead(x, r, key, v);
      } else {
        InsertInFront(x, r, key, v);
      }
    }
  }

  /** The tail of a descending list is descending. */
  lemma DescendingTail<T>(r: seq<T>, key: T -> int)
    requires r != [] && Descending(r, key)
    ensures Descending(r[1..], key)
  {
    forall i, j | 0 <= i < j < |r[1..]| ensures key(r[1..][i]) >= key(r[1..][j]) {
      assert r[1..][i] == r[i + 1] && r[1..][j] == r[j + 1];
    }
  }

  /** Insertion behind the head: the head's contribution comes first. */
  lemma InsertBehindHead<T>(x: T, r: seq<T>, key: T -> int, v: int)
    requires r != [] && key(r[0]) >= key(x)
    requires WithKey(Insert(x, r[1..], key), key, v) == WithKey(r[1..], key, v) + (if key(x) == v then [x] else [])
    ensures WithKey(Insert(x, r, key), key, v) == WithKey(r, key, v) + (if key(x) == v then [x] else [])
  {
    var out := Insert(x, r, key);
    var rest := Insert(x, r[1..], key);
    var head := if key(r[0]) == v then [r[0]] else [];
    var tail := if key(x) == v then [x] else [];
    assert out == [r[0]] + rest;
    assert out[0] == r[0] && out[1..] == rest;
    assert WithKey(out, key, v) == head + WithKey(rest, key, v);
    assert WithKey(r, key, v) == head + WithKey(r[1..], key, v);
    Text.ConcatAssoc(head, WithKey(r[1..], key, v), tail);
  }

  /** Insertion in front of a larger head: nothing before it shares its key. */
  lemma InsertInFront<T>(x: T, r: seq<T>, key: T -> int, v: int)
    requires r != [] && Descending(r, key) && key(r[0]) < key(x)
    ensures WithKey(Insert(x, r, key), key, v) == WithKey(r, key, v) + (if key(x) == v then [x] else [])
  {
    assert Insert(x, r, key) == [x] + r;
    WithKeyConcat([x], r, key, v);
    if key(x) == v {
      forall k | 0 <= k < |r| ensures key(r[k]) < v {
        HeadIsLargest(r, key, r[k]);
      }
      WithKeyNone(r, key, v);
    }
  }

  /** `sorted(s, key=key, reverse=True)` is in descending key order. */
  lemma {:induction false} SortDescDescending<T>(s: seq<T>, key: T -> int)
    ensures Descending(SortDesc(s, key), key)
  {
    if s != [] {
      SortDescDescending(s[..|s| - 1], key);
      InsertDescending(s[|s| - 1], SortDesc(s[..|s| - 1], key), key);
    }
  }

  /** ... and stable: the elements with any one key keep their order. */
  lemma {:induction false} SortDescStable<T>(s: seq<T>, key: T -> int, v: int)
    ensures WithKey(SortDesc(s, key), key, v) == WithKey(s, key, v)
  {
    if s != [] {
      var init := s[..|s| - 1];
      var x := s[|s| - 1];
      assert s == init + [x];
      assert SortDesc(s, key) == Insert(x, SortDesc(init, key), key);
      SortDescStable(init, key, v);
      InsertIntoSorted(init, x, key, v);
      WithKeySnoc(init, x, key, v);
    }
  }

  lemma InsertIntoSorted<T>(init: seq<T>, x: T, key: T -> int, v: int)
    ensures WithKey(Insert(x, SortDesc(init, key), key), key, v)
         == WithKey(SortDesc(init, key), key, v) + (if key(x) == v then [x] else [])
  {
    SortDescDescending(init, key);
    InsertWithKey(x, SortDesc(init, key), key, v);
  }

  lemma WithKeySnoc<T>(init: seq<T>, x: T, key: T -> int, v: int)
    ensures WithKey(init + [x], key, v) == WithKey(init, key, v) + (if key(x) == v then [x] else [])
  {
    WithKeyConcat(init, [x], key, v);
    assert WithKey([x], key, v) == (if key(x) == v then [x] else []) + WithKey([], key, v);
  }

  /** Python's stable descending sort: a permutation, in descending key
      order, with equal keys in their original order. */
  lemma SortDescSpec<T>(s: seq<T>, key: T -> int)
    ensures multiset(SortDesc(s, key)) == multiset(s)
    ensures Descending(SortDesc(s, key), key)
    ensures forall v :: WithKey(SortDesc(s, key), key, v) == WithKey(s, key, v)
  {
    SortDescDescending(s, key);
    forall v ensures WithKey(SortDesc(s, key), key, v) == WithKey(s, key, v) {
      SortDescStable(s, key, v);
    }
  }

  /** `sorted(...)[:n]` */
  function Top<T>(s: seq<T>, key: T -> int, n: nat): (r: seq<T>)
    ensures |r| <= n && |r| <= |s|
  {
    var sorted := SortDesc(s, key);
    if |sorted| <= n then sorted else sorted[..n]
  }

  /** The top `n` are the first `n` of the stable descending order: at most
      `n` of them, in descending order, and nothing left out scores more
      than the last one kept. */
  lemma TopSpec<T>(s: seq<T>, key: T -> int, n: nat)
    ensures var r := Top(s, key, n);
      && |r| == (if |s| <= n then |s| else n)
      && r == SortDesc(s, key)[..|r|]
      && Descending(r, key)
      && (forall i, k :: 0 <= i < |r| <= k < |s| ==> key(SortDesc(s, key)[k]) <= key(r[i]))
      && (|s| <= n ==> multiset(r) == multiset(s))
  {
    var sorted := SortDesc(s, key);
    SortDescDescending(s, key);
    var r := Top(s, key, n);
    assert r == sorted[..|r|];
    forall i, j | 0 <= i < j < |r| ensures key(r[i]) >= key(r[j]) {
      assert r[i] == sorted[i] && r[j] == sorted[j];
    }
    forall i, k | 0 <= i < |r| <= k < |s| ensures key(sorted[k]) <= key(r[i]) {
      assert r[i] == sorted[i];
    }
  }
}
