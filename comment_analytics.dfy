/** backend/api/helpers/comment_analytics_helper.py: comment counts, and the
    "top N" rankings that join comments to their authors or campaigns, group
    by name and order by the number of comments. */
module CommentAnalytics {

  import opened Tables
  import opened Models

  // ---------------------------------------------------------------------
  // get_total_comments, get_total_comments_by_user, get_total_comments_by_campaign

  function ByUser(userId: Id): Comment -> bool { (c: Comment) => c.userId == userId }
  function ByCampaign(campaignId: Id): Comment -> bool { (c: Comment) => c.campaignId == campaignId }

  /** `count(comment_id)` over the whole table. */
  function GetTotalComments(t: Table<Comment>): (n: nat)
    ensures Tables.Valid(t) ==> n == |t.rows|
  {
    assert Tables.Valid(t) ==> |Select(t, All)| == |t.rows| by {
      if Tables.Valid(t) { SelectAllCount(t, All); }
    }
    |Select(t, All)|
  }

  /** `count(comment_id)` filtered by author. */
  function GetTotalCommentsByUser(t: Table<Comment>, userId: Id): (n: nat)
    ensures Tables.Valid(t) ==> n == |Matching(t, ByUser(userId))|
  {
    assert Tables.Valid(t) ==> |Select(t, ByUser(userId))| == |Matching(t, ByUser(userId))| by {
      if Tables.Valid(t) { SelectCount(t, ByUser(userId)); }
    }
    |Select(t, ByUser(userId))|
  }

  /** `count(comment_id)` filtered by campaign. */
  function GetTotalCommentsByCampaign(t: Table<Comment>, campaignId: Id): (n: nat)
    ensures Tables.Valid(t) ==> n == |Matching(t, ByCampaign(campaignId))|
  {
    assert Tables.Valid(t) ==> |Select(t, ByCampaign(campaignId))| == |Matching(t, ByCampaign(campaignId))| by {
      if Tables.Valid(t) { SelectCount(t, ByCampaign(campaignId)); }
    }
    |Select(t, ByCampaign(campaignId))|
  }

  lemma MatchingWithinRows(t: Table<Comment>, p: Comment -> bool)
    ensures |Matching(t, p)| <= |t.rows|
  {
    var rest := t.rows.Keys - Matching(t, p);
    assert t.rows.Keys == Matching(t, p) + rest;
    assert Matching(t, p) * rest == {};
  }

  /** A filtered count never exceeds the total. */
  lemma FilteredCountsWithinTotal(t: Table<Comment>, userId: Id, campaignId: Id)
    requires Tables.Valid(t)
    ensures GetTotalCommentsByUser(t, userId) <= GetTotalComments(t)
    ensures GetTotalCommentsByCampaign(t, campaignId) <= GetTotalComments(t)
  {
    MatchingWithinRows(t, ByUser(userId));
    MatchingWithinRows(t, ByCampaign(campaignId));
  }

  /** A new comment raises the total and its author's and campaign's counts by one. */
  lemma CreateCountsOnce(t: Table<Comment>, c: Comment, otherUser: Id)
    requires Tables.Valid(t) && otherUser != c.userId
    ensures GetTotalComments(Insert(t, c).0) == GetTotalComments(t) + 1
    ensures GetTotalCommentsByUser(Insert(t, c).0, c.userId) == GetTotalCommentsByUser(t, c.userId) + 1
    ensures GetTotalCommentsByCampaign(Insert(t, c).0, c.campaignId) == GetTotalCommentsByCampaign(t, c.campaignId) + 1
    ensures GetTotalCommentsByUser(Insert(t, c).0, otherUser) == GetTotalCommentsByUser(t, otherUser)
  {
    SelectInsert(t, c, All);
    SelectInsert(t, c, ByUser(c.userId));
    SelectInsert(t, c, ByCampaign(c.campaignId));
    SelectInsert(t, c, ByUser(otherUser));
  }

  // ---------------------------------------------------------------------
  // Grouping: a list of (name, count) pairs.

  type Counts = seq<(string, nat)>

  /** How often `k` occurs in `keys`. */
  function Occ(keys: seq<string>, k: string): nat {
    if keys == [] then 0
    else Occ(keys[..|keys| - 1], k) + (if keys[|keys| - 1] == k then 1 else 0)
  }

  /** The count recorded for `k`, 0 when `k` has no entry. */
  function CountOf(t: Counts, k: string): nat {
    if t == [] then 0 else if t[0].0 == k then t[0].1 else CountOf(t[1..], k)
  }

  function NamesOf(t: Counts): set<string> {
    set i | 0 <= i < |t| :: t[i].0
  }

  /** One entry per name: what `group_by` produces. */
  predicate Distinct(t: Counts) {
    forall i, j :: 0 <= i < j < |t| ==> t[i].0 != t[j].0
  }

  predicate Positive(t: Counts) {
    forall i :: 0 <= i < |t| ==> t[i].1 >= 1
  }

  /** Ordered by count, largest first: `order_by(count.desc())`. */
  predicate Descending(t: Counts) {
    forall i, j :: 0 <= i < j < |t| ==> t[i].1 >= t[j].1
  }

  lemma NamesCons(a: (string, nat), t: Counts)
    ensures NamesOf([a] + t) == {a.0} + NamesOf(t)
  {
    forall n | n in NamesOf([a] + t) ensures n in {a.0} + NamesOf(t) {
      var i :| 0 <= i < |[a] + t| && ([a] + t)[i].0 == n;
      if i > 0 { assert t[i - 1].0 == n; }
    }
    forall n | n in NamesOf(t) ensures n in NamesOf([a] + t) {
      var i :| 0 <= i < |t| && t[i].0 == n;
      assert ([a] + t)[i + 1].0 == n;
    }
    assert ([a] + t)[0].0 == a.0;
  }

  /** Count one more occurrence of `k`. */
  function Bump(t: Counts, k: string): (r: Counts)
    ensures Distinct(t) ==> Distinct(r)
    ensures Positive(t) ==> Positive(r)
    ensures NamesOf(r) == NamesOf(t) + {k}
    ensures forall j :: CountOf(r, j) == CountOf(t, j) + (if j == k then 1 else 0)
  {
    if t == [] then
      NamesCons((k, 1), []);
      [(k, 1)]
    else if t[0].0 == k then
      assert t == [t[0]] + t[1..];
      NamesCons(t[0], t[1..]);
      NamesCons((k, t[0].1 + 1), t[1..]);
      assert Distinct(t) ==> k !in NamesOf(t[1..]);
      [(k, t[0].1 + 1)] + t[1..]
    else
      var rest := Bump(t[1..], k);
      assert t == [t[0]] + t[1..];
      NamesCons(t[0], t[1..]);
      NamesCons(t[0], rest);
      assert Distinct(t) ==> t[0].0 !in NamesOf(t[1..]);
      [t[0]] + rest
  }

  /** In a list with one entry per name, an entry's count is the name's count. */
  lemma {:induction false} EntryCount(t: Counts, x: (string, nat))
    requires Distinct(t) && x in t
    ensures CountOf(t, x.0) == x.1
  {
    if t[0] != x {
      assert x in t[1..];
      var i :| 0 <= i < |t[1..]| && t[1..][i] == x;
      assert t[1 + i] == x;
      EntryCount(t[1..], x);
    }
  }

  /** A name with a non-zero count has an entry. */
  lemma {:induction false} CountedIsNamed(t: Counts, k: string)
    requires CountOf(t, k) != 0
    ensures k in NamesOf(t)
  {
    if t[0].0 != k {
      CountedIsNamed(t[1..], k);
      var i :| 0 <= i < |t[1..]| && t[1..][i].0 == k;
      assert t[1 + i].0 == k;
    }
  }

  /** `group_by(name)` with `count(...)`: one entry per name occurring in `keys`,
      carrying the number of occurrences. */
  function Tally(keys: seq<string>): (r: Counts)
    ensures Distinct(r) && Positive(r)
    ensures forall k :: CountOf(r, k) == Occ(keys, k)
  {
    if keys == [] then [] else Bump(Tally(keys[..|keys| - 1]), keys[|keys| - 1])
  }

  /** Put `x` before the first entry whose count is not larger. */
  function InsertDesc(x: (string, nat), s: Counts): (r: Counts)
    ensures multiset(r) == multiset(s) + multiset{x} && |r| == |s| + 1
  {
    if s == [] || s[0].1 <= x.1 then [x] + s
    else
      assert s == [s[0]] + s[1..];
      [s[0]] + InsertDesc(x, s[1..])
  }

  lemma InMultiset(x: (string, nat), s: Counts, t: Counts)
    requires multiset(s) == multiset(t) && x in s
    ensures x in t
  {
    assert x in multiset(s);
  }

  lemma {:induction false} InsertKeepsDescending(x: (string, nat), s: Counts)
    requires Descending(s)
    ensures Descending(InsertDesc(x, s))
  {
    if s != [] && s[0].1 > x.1 {
      var rest := InsertDesc(x, s[1..]);
      assert s == [s[0]] + s[1..];
      InsertKeepsDescending(x, s[1..]);
      forall j | 0 <= j < |rest| ensures s[0].1 >= rest[j].1 {
        assert rest[j] in rest;
        assert rest[j] in multiset(s[1..]) + multiset{x};
        if rest[j] != x {
          var i :| 0 <= i < |s[1..]| && s[1..][i] == rest[j];
          assert s[1 + i] == rest[j];
        }
      }
    }
  }

  lemma {:induction false} InsertKeepsDistinct(x: (string, nat), s: Counts)
    requires Distinct(s) && forall y :: y in s ==> y.0 != x.0
    ensures Distinct(InsertDesc(x, s))
  {
    if s != [] && s[0].1 > x.1 {
      var rest := InsertDesc(x, s[1..]);
      assert s == [s[0]] + s[1..];
      InsertKeepsDistinct(x, s[1..]);
      forall j | 0 <= j < |rest| ensures s[0].0 != rest[j].0 {
        assert rest[j] in rest;
        assert rest[j] in multiset(s[1..]) + multiset{x};
        if rest[j] != x {
          var i :| 0 <= i < |s[1..]| && s[1..][i] == rest[j];
          assert s[1 + i] == rest[j];
        }
      }
    }
  }

  /** Insertion sort by count, largest first: a permutation in descending order. */
  function SortDesc(t: Counts): (r: Counts)
    ensures multiset(r) == multiset(t) && |r| == |t|
    ensures Descending(r)
  {
    if t == [] then []
    else
      var rest := SortDesc(t[1..]);
      assert t == [t[0]] + t[1..];
      InsertKeepsDescending(t[0], rest);
      InsertDesc(t[0], rest)
  }

  /** Sorting keeps one entry per name. */
  lemma {:induction false} SortKeepsDistinct(t: Counts)
    requires Distinct(t)
    ensures Distinct(SortDesc(t))
  {
    if t != [] {
      var rest := SortDesc(t[1..]);
      assert t == [t[0]] + t[1..];
      SortKeepsDistinct(t[1..]);
      forall y | y in rest ensures y.0 != t[0].0 {
        InMultiset(y, rest, t[1..]);
        var i :| 0 <= i < |t[1..]| && t[1..][i] == y;
        assert t[1 + i] == y;
      }
      InsertKeepsDistinct(t[0], rest);
    }
  }

  function Min(a: nat, b: nat): nat { if a <= b then a else b }

  /** Every name with its number of occurrences, largest count first. */
  function Ranked(keys: seq<string>): (s: Counts)
    ensures Descending(s) && Distinct(s)
  {
    SortKeepsDistinct(Tally(keys));
    SortDesc(Tally(keys))
  }

  lemma RankedEntries(keys: seq<string>, x: (string, nat))
    requires x in Ranked(keys)
    ensures x.1 >= 1 && x.1 == Occ(keys, x.0)
  {
    var t := Tally(keys);
    InMultiset(x, Ranked(keys), t);
    EntryCount(t, x);
    var i :| 0 <= i < |t| && t[i] == x;
  }

  lemma RankedComplete(keys: seq<string>, k: string)
    requires Occ(keys, k) >= 1
    ensures exists y :: y in Ranked(keys) && y.0 == k
  {
    var t := Tally(keys);
    CountedIsNamed(t, k);
    var i :| 0 <= i < |t| && t[i].0 == k;
    InMultiset(t[i], t, Ranked(keys));
  }

  /** In a descending list, an entry past a prefix counts no more than one inside it. */
  lemma PrefixDominates(s: Counts, m: nat, x: (string, nat), y: (string, nat))
    requires Descending(s) && m <= |s|
    requires x in s[..m] && y in s && y.0 !in NamesOf(s[..m])
    ensures y.1 <= x.1
  {
    var i :| 0 <= i < m && s[..m][i] == x;
    var j :| 0 <= j < |s| && s[j] == y;
  }

  lemma PrefixEntries(keys: seq<string>, m: nat)
    requires m <= |Ranked(keys)|
    ensures forall x :: x in Ranked(keys)[..m] ==> x.1 >= 1 && x.1 == Occ(keys, x.0)
  {
    forall x | x in Ranked(keys)[..m] ensures x.1 >= 1 && x.1 == Occ(keys, x.0) {
      var i :| 0 <= i < m && Ranked(keys)[..m][i] == x;
      assert Ranked(keys)[i] == x;
      RankedEntries(keys, x);
    }
  }

  lemma PrefixIsTop(keys: seq<string>, m: nat)
    requires m <= |Ranked(keys)|
    ensures forall x, k :: x in Ranked(keys)[..m] && k !in NamesOf(Ranked(keys)[..m]) ==> Occ(keys, k) <= x.1
  {
    var s := Ranked(keys);
    forall x, k | x in s[..m] && k !in NamesOf(s[..m]) ensures Occ(keys, k) <= x.1 {
      if Occ(keys, k) >= 1 {
        RankedComplete(keys, k);
        var y :| y in s && y.0 == k;
        RankedEntries(keys, y);
        PrefixDominates(s, m, x, y);
      }
    }
  }

  lemma RankedNamesAll(keys: seq<string>)
    ensures forall k :: Occ(keys, k) >= 1 ==> k in NamesOf(Ranked(keys))
  {
    var s := Ranked(keys);
    forall k | Occ(keys, k) >= 1 ensures k in NamesOf(s) {
      RankedComplete(keys, k);
      var y :| y in s && y.0 == k;
      var j :| 0 <= j < |s| && s[j] == y;
    }
  }

  /** `group_by(name).order_by(count.desc()).limit(limit)` over the joined names. */
  function TopOf(keys: seq<string>, limit: nat): (r: Counts)
    ensures |r| <= limit && Descending(r) && Distinct(r)
    ensures forall x :: x in r ==> x.1 >= 1 && x.1 == Occ(keys, x.0)
    // no name left out has more occurrences than a name kept
    ensures forall x, k :: x in r && k !in NamesOf(r) ==> Occ(keys, k) <= x.1
    // below the limit, every name that occurs is listed
    ensures |r| < limit ==> forall k :: Occ(keys, k) >= 1 ==> k in NamesOf(r)
  {
    var m := Min(limit, |Ranked(keys)|);
    PrefixEntries(keys, m);
    PrefixIsTop(keys, m);
    RankedNamesAll(keys);
    assert m < limit ==> Ranked(keys)[..m] == Ranked(keys);
    Ranked(keys)[..m]
  }

  // ---------------------------------------------------------------------
  // The join: each comment whose parent row exists contributes the parent's name.

  /** The comment's parent (its author or its campaign) exists and is named `name`. */
  function JoinedTo<P>(parents: Table<P>, nameOf: P -> string, fk: Comment -> Id, name: string): Comment -> bool {
    (c: Comment) => fk(c) in parents.rows && nameOf(parents.rows[fk(c)]) == name
  }

  /** `join(Comments, Parent.id == fk)` over the comments with keys below `n`,
      projected on the parent's name, in ascending comment key order. */
  function JoinedNames<P>(parents: Table<P>, nameOf: P -> string, fk: Comment -> Id, rows: map<Id, Comment>, n: Id): seq<string>
    decreases n
  {
    if n <= 1 then []
    else
      JoinedNames(parents, nameOf, fk, rows, n - 1)
        + (if n - 1 in rows && fk(rows[n - 1]) in parents.rows then [nameOf(parents.rows[fk(rows[n - 1])])] else [])
  }

  /** A name occurs in the join once per comment attached to a parent of that name. */
  lemma {:induction false} JoinedNamesCount<P>(parents: Table<P>, nameOf: P -> string, fk: Comment -> Id, rows: map<Id, Comment>, n: Id, name: string)
    ensures Occ(JoinedNames(parents, nameOf, fk, rows, n), name) == |SelectBelow(rows, n, JoinedTo(parents, nameOf, fk, name))|
    decreases n
  {
    if n > 1 {
      JoinedNamesCount(parents, nameOf, fk, rows, n - 1, name);
      var before := JoinedNames(parents, nameOf, fk, rows, n - 1);
      if n - 1 in rows && fk(rows[n - 1]) in parents.rows {
        var v := nameOf(parents.rows[fk(rows[n - 1])]);
        assert (before + [v])[..|before|] == before;
      } else {
        assert before + [] == before;
      }
    }
  }

  /** The number of comments attached to parents named `name`. */
  ghost function CommentsUnder<P>(parents: Table<P>, nameOf: P -> string, fk: Comment -> Id, comments: Table<Comment>, name: string): nat {
    |Matching(comments, JoinedTo(parents, nameOf, fk, name))|
  }

  /** The ranking, for any parent table: the `limit` names with most comments. */
  function TopBy<P>(parents: Table<P>, nameOf: P -> string, fk: Comment -> Id, comments: Table<Comment>, limit: nat): (r: Counts)
    ensures |r| <= limit && Descending(r) && Distinct(r)
    ensures Tables.Valid(comments) ==> forall x :: x in r ==> x.1 >= 1 && x.1 == CommentsUnder(parents, nameOf, fk, comments, x.0)
    ensures Tables.Valid(comments) ==> forall x, k :: x in r && k !in NamesOf(r) ==> CommentsUnder(parents, nameOf, fk, comments, k) <= x.1
    ensures Tables.Valid(comments) && |r| < limit ==>
      forall k :: CommentsUnder(parents, nameOf, fk, comments, k) >= 1 ==> k in NamesOf(r)
  {
    var keys := JoinedNames(parents, nameOf, fk, comments.rows, comments.next);
    assert Tables.Valid(comments) ==> forall k :: Occ(keys, k) == CommentsUnder(parents, nameOf, fk, comments, k) by {
      if Tables.Valid(comments) {
        forall k ensures Occ(keys, k) == CommentsUnder(parents, nameOf, fk, comments, k) {
          JoinedNamesCount(parents, nameOf, fk, comments.rows, comments.next, k);
          SelectCount(comments, JoinedTo(parents, nameOf, fk, k));
        }
      }
    }
    TopOf(keys, limit)
  }

  function Username(u: User): string { u.username }
  function Author(c: Comment): Id { c.userId }
  function Title(c: Campaign): string { c.title }
  function CampaignOf(c: Comment): Id { c.campaignId }

  /** `get_top_commenters(limit)`: (username, comment_count) pairs. Users sharing
      a username are counted together, because the grouping is by name. */
  function GetTopCommenters(users: Table<User>, comments: Table<Comment>, limit: nat): (r: Counts)
    ensures |r| <= limit && Descending(r) && Distinct(r)
    ensures Tables.Valid(comments) ==> forall x :: x in r ==>
      x.1 >= 1 && x.1 == CommentsUnder(users, Username, Author, comments, x.0)
    ensures Tables.Valid(comments) ==> forall x, k :: x in r && k !in NamesOf(r) ==>
      CommentsUnder(users, Username, Author, comments, k) <= x.1
    ensures Tables.Valid(comments) && |r| < limit ==>
      forall k :: CommentsUnder(users, Username, Author, comments, k) >= 1 ==> k in NamesOf(r)
  {
    TopBy(users, Username, Author, comments, limit)
  }

  /** `get_top_commented_campaigns(limit)`: (title, comment_count) pairs. Campaigns
      sharing a title are counted together. */
  function GetTopCommentedCampaigns(campaigns: Table<Campaign>, comments: Table<Comment>, limit: nat): (r: Counts)
    ensures |r| <= limit && Descending(r) && Distinct(r)
    ensures Tables.Valid(comments) ==> forall x :: x in r ==>
      x.1 >= 1 && x.1 == CommentsUnder(campaigns, Title, CampaignOf, comments, x.0)
    ensures Tables.Valid(comments) ==> forall x, k :: x in r && k !in NamesOf(r) ==>
      CommentsUnder(campaigns, Title, CampaignOf, comments, k) <= x.1
    ensures Tables.Valid(comments) && |r| < limit ==>
      forall k :: CommentsUnder(campaigns, Title, CampaignOf, comments, k) >= 1 ==> k in NamesOf(r)
  {
    TopBy(campaigns, Title, CampaignOf, comments, limit)
  }

  /** Campaign titles need not be unique, and comments on two campaigns with
      the same title land in one entry. */
  lemma SameTitleMerges(campaigns: Table<Campaign>, k1: Id, k2: Id, c1: Comment, c2: Comment)
    requires k1 != k2 && k1 in campaigns.rows && k2 in campaigns.rows
    requires campaigns.rows[k1].title == campaigns.rows[k2].title
    requires c1.campaignId == k1 && c2.campaignId == k2
    ensures var t := Insert(Insert(Empty(), c1).0, c2).0;
      GetTopCommentedCampaigns(campaigns, t, 5) == [(campaigns.rows[k1].title, 2)]
  {
    var name := campaigns.rows[k1].title;
    JoinTwoComments(campaigns, c1, c2);
    TwiceTops(name);
  }

  lemma JoinTwoComments(campaigns: Table<Campaign>, c1: Comment, c2: Comment)
    requires c1.campaignId in campaigns.rows && c2.campaignId in campaigns.rows
    ensures var t := Insert(Insert(Empty(), c1).0, c2).0;
      JoinedNames(campaigns, Title, CampaignOf, t.rows, t.next)
        == [campaigns.rows[c1.campaignId].title, campaigns.rows[c2.campaignId].title]
  {
    var t := Insert(Insert(Empty(), c1).0, c2).0;
    assert t.next == 3;
    assert JoinedNames(campaigns, Title, CampaignOf, t.rows, 1) == [];
    assert JoinedNames(campaigns, Title, CampaignOf, t.rows, 2) == [campaigns.rows[c1.campaignId].title];
  }

  /** One name twice gives the single entry (name, 2). */
  lemma TwiceTops(name: string)
    ensures TopOf([name, name], 5) == [(name, 2)]
  {
    assert [name, name][..1] == [name];
    assert Tally([name]) == [(name, 1)];
    assert Tally([name, name]) == [(name, 2)];
  }
}
