/** The summary extractKeyInsights reduces a collected dataset to: up to five
    top forum posts (title, score, url), their titles joined with ". " as
    `trends`, the titles of the first three feed items joined with ". " as
    `insights`, and one record count per source. KeyInsights is the summary
    as a function of the dataset before the in-place sort. */
module Insights {
  import opened Records
  import opened Ranking

  /** A ranked forum post as it appears in the summary. */
  datatype TopPost = TopPost(title: string, score: int, url: string)

  /** A feed item as kept for the summary. */
  datatype FeedLink = FeedLink(title: Option<string>, url: Option<string>)

  datatype SourceCount = SourceCount(reddit: nat, rss: nat)

  datatype Summary = Summary(trends: string, insights: string, sourceCount: SourceCount, topPosts: seq<TopPost>)

  const TopPostLimit: nat := 5
  const TopFeedLimit: nat := 3
  const Separator: string := ". "

  /** `parts.join(". ")`: the parts with the separator between neighbours. */
  function Join(parts: seq<string>): (r: string)
    ensures parts == [] ==> r == ""
    ensures parts != [] ==> parts[0] <= r
  {
    if parts == [] then ""
    else if |parts| == 1 then parts[0]
    else parts[0] + Separator + Join(parts[1..])
  }

  /** Where the i-th part starts in Join(parts). */
  function Offset(parts: seq<string>, i: nat): nat
    requires i <= |parts|
  {
    if i == 0 then 0 else |parts[0]| + |Separator| + Offset(parts[1..], i - 1)
  }

  lemma SliceOfAppend(a: string, b: string, u: nat, v: nat)
    requires u <= v <= |b|
    ensures (a + b)[|a| + u..|a| + v] == b[u..v]
  {
  }

  lemma JoinCons(parts: seq<string>)
    requires |parts| > 1
    ensures Join(parts) == (parts[0] + Separator) + Join(parts[1..])
  {
  }

  /** The first part opens the join, followed by the separator if more come. */
  lemma JoinFirst(parts: seq<string>)
    requires parts != []
    ensures |parts| == 1 ==> Join(parts) == parts[0]
    ensures |parts| > 1 ==>
      |parts[0]| + |Separator| <= |Join(parts)| &&
      Join(parts)[..|parts[0]|] == parts[0] &&
      Join(parts)[|parts[0]|..|parts[0]| + |Separator|] == Separator
  {
    if |parts| > 1 {
      JoinCons(parts);
      var j := Join(parts);
      assert j == parts[0] + (Separator + Join(parts[1..]));
      assert j[..|parts[0]|] == parts[0];
    }
  }

  /** Join(parts) can be read back part by part: the i-th part sits at
      Offset(parts, i), followed by the separator unless it is the last. */
  lemma {:induction false} JoinAt(parts: seq<string>, i: nat)
    requires i < |parts|
    ensures Offset(parts, i) + |parts[i]| <= |Join(parts)|
    ensures Join(parts)[Offset(parts, i)..Offset(parts, i) + |parts[i]|] == parts[i]
    ensures i + 1 < |parts| ==>
      Offset(parts, i + 1) == Offset(parts, i) + |parts[i]| + |Separator| &&
      Offset(parts, i + 1) <= |Join(parts)| &&
      Join(parts)[Offset(parts, i) + |parts[i]|..Offset(parts, i + 1)] == Separator
    ensures i + 1 == |parts| ==> |Join(parts)| == Offset(parts, i) + |parts[i]|
  {
    if i == 0 {
      JoinFirst(parts);
    } else {
      var head := parts[0] + Separator;
      var rest := parts[1..];
      JoinCons(parts);
      JoinAt(rest, i - 1);
      var o := Offset(rest, i - 1);
      SliceOfAppend(head, Join(rest), o, o + |parts[i]|);
      if i + 1 < |parts| {
        SliceOfAppend(head, Join(rest), o + |parts[i]|, Offset(rest, i));
      }
    }
  }

  /** The total length of the parts. */
  function TotalLength(parts: seq<string>): nat {
    if parts == [] then 0 else |parts[0]| + TotalLength(parts[1..])
  }

  /** The length of a join: every part, plus two characters for each of the
      |parts| - 1 separators. */
  lemma {:induction false} JoinLength(parts: seq<string>)
    ensures |Join(parts)| == TotalLength(parts) + (if parts == [] then 0 else 2 * (|parts| - 1))
  {
    if |parts| > 1 {
      JoinCons(parts);
      JoinLength(parts[1..]);
    }
  }

  /** How `Array.prototype.join` renders a title that may be undefined: the
      title itself, or "" when it is undefined. This defines that piece of
      JavaScript semantics and claims nothing beyond it. */
  function TitleText(title: Option<string>): (r: string)
    ensures title == Some(r) || (title.None? && r == "")
  {
    match title
    case Some(t) => t
    case None => ""
  }

  function PostOf(r: ForumRecord): TopPost {
    TopPost(r.title, r.score, r.url)
  }

  function LinkOf(r: FeedRecord): FeedLink {
    FeedLink(r.title, r.url)
  }

  /** `ranked.slice(0, 5).map(...)`. */
  function TopReddit(ranked: seq<ForumRecord>): (r: seq<TopPost>)
    ensures |r| == Min(|ranked|, TopPostLimit)
    ensures forall i :: 0 <= i < |r| ==> r[i] == PostOf(ranked[i])
  {
    var kept := ranked[..Min(|ranked|, TopPostLimit)];
    seq(|kept|, i requires 0 <= i < |kept| => PostOf(kept[i]))
  }

  /** `rss.slice(0, 3).map(...)`. */
  function TopRss(rss: seq<FeedRecord>): (r: seq<FeedLink>)
    ensures |r| == Min(|rss|, TopFeedLimit)
    ensures forall i :: 0 <= i < |r| ==> r[i] == LinkOf(rss[i])
  {
    var kept := rss[..Min(|rss|, TopFeedLimit)];
    seq(|kept|, i requires 0 <= i < |kept| => LinkOf(kept[i]))
  }

  function PostTitles(posts: seq<TopPost>): (r: seq<string>)
    ensures |r| == |posts|
    ensures forall i :: 0 <= i < |r| ==> r[i] == posts[i].title
  {
    seq(|posts|, i requires 0 <= i < |posts| => posts[i].title)
  }

  function LinkTitles(links: seq<FeedLink>): (r: seq<string>)
    ensures |r| == |links|
    ensures forall i :: 0 <= i < |r| ==> r[i] == TitleText(links[i].title)
  {
    seq(|links|, i requires 0 <= i < |links| => TitleText(links[i].title))
  }

  /** The summary built from the forum records once they are ranked. */
  function Summarise(ranked: seq<ForumRecord>, rss: seq<FeedRecord>): (r: Summary)
    ensures |r.topPosts| == Min(|ranked|, TopPostLimit)
    ensures forall i :: 0 <= i < |r.topPosts| ==> r.topPosts[i] == PostOf(ranked[i])
    ensures r.trends == Join(PostTitles(r.topPosts))
    ensures r.insights == Join(LinkTitles(TopRss(rss)))
    ensures r.sourceCount == SourceCount(|ranked|, |rss|)
  {
    var top := TopReddit(ranked);
    Summary(
      Join(PostTitles(top)),
      Join(LinkTitles(TopRss(rss))),
      SourceCount(|ranked|, |rss|),
      top)
  }

  /** The forum records behind the summary's top posts. */
  function TopRecords(reddit: seq<ForumRecord>): seq<ForumRecord> {
    var ranked := SortedByScore(reddit);
    ranked[..Min(|ranked|, TopPostLimit)]
  }

  /** What extractKeyInsights returns for the dataset (reddit, rss). */
  function KeyInsights(reddit: seq<ForumRecord>, rss: seq<FeedRecord>): (r: Summary)
    ensures |r.topPosts| == Min(|reddit|, TopPostLimit)
    ensures forall i, j :: 0 <= i < j < |r.topPosts| ==> r.topPosts[i].score >= r.topPosts[j].score
    ensures r.sourceCount == SourceCount(|reddit|, |rss|)
  {
    Summarise(SortedByScore(reddit), rss)
  }

  /** The top posts are min(5, |reddit|) posts in descending score order,
      each the projection of one of the top records. */
  lemma KeyInsightsTopPosts(reddit: seq<ForumRecord>, rss: seq<FeedRecord>)
    ensures var s := KeyInsights(reddit, rss);
      |s.topPosts| == Min(|reddit|, TopPostLimit) &&
      |TopRecords(reddit)| == |s.topPosts| &&
      (forall i :: 0 <= i < |s.topPosts| ==> s.topPosts[i] == PostOf(TopRecords(reddit)[i])) &&
      (forall i, j :: 0 <= i < j < |s.topPosts| ==> s.topPosts[i].score >= s.topPosts[j].score)
  {
  }

  /** The top records are taken from the input, and every input record left
      out scores no higher than any record taken. */
  lemma KeyInsightsSelectsHighest(reddit: seq<ForumRecord>)
    ensures multiset(TopRecords(reddit)) <= multiset(reddit)
    ensures forall x, i :: x in multiset(reddit) - multiset(TopRecords(reddit)) && 0 <= i < |TopRecords(reddit)| ==>
      x.score <= TopRecords(reddit)[i].score
  {
    var ranked := SortedByScore(reddit);
    var m := Min(|ranked|, TopPostLimit);
    var top, rest := ranked[..m], ranked[m..];
    assert ranked == top + rest;
    SortedByScorePermutes(reddit);
    assert multiset(reddit) == multiset(top) + multiset(rest);
    forall x: ForumRecord, i | x in multiset(rest) && 0 <= i < |top|
      ensures x.score <= top[i].score
    {
      var j :| 0 <= j < |rest| && rest[j] == x;
      assert ranked[m + j] == x && ranked[i] == top[i];
    }
  }

  /** Among records with equal scores, the ones selected are the earliest in
      input order: for every score, the selected records with that score are
      a prefix of the input's records with that score. */
  lemma KeyInsightsTiesInInputOrder(reddit: seq<ForumRecord>, k: int)
    ensures WithScore(TopRecords(reddit), k) <= WithScore(reddit, k)
  {
    var ranked := SortedByScore(reddit);
    var m := Min(|ranked|, TopPostLimit);
    assert ranked == ranked[..m] + ranked[m..];
    WithScoreAppend(ranked[..m], ranked[m..], k);
    SortedByScoreStable(reddit, k);
  }

  /** The feed entries are the first min(3, |rss|) items in input order, and
      `insights` joins their titles. */
  lemma KeyInsightsFeed(reddit: seq<ForumRecord>, rss: seq<FeedRecord>)
    ensures var s := KeyInsights(reddit, rss);
      var links := TopRss(rss);
      |links| == Min(|rss|, TopFeedLimit) &&
      (forall i :: 0 <= i < |links| ==> links[i] == FeedLink(rss[i].title, rss[i].url)) &&
      s.insights == Join(LinkTitles(links))
  {
  }

  /** `trends` joins the titles of exactly the posts listed in `topPosts`, in
      ranked order: it is empty when there are no forum records, and
      otherwise the i-th title can be read back at its offset, followed by
      ". " unless it is the last, which ends the string. */
  lemma KeyInsightsTrends(reddit: seq<ForumRecord>, rss: seq<FeedRecord>, i: nat)
    ensures var s := KeyInsights(reddit, rss);
      s.trends == Join(PostTitles(s.topPosts))
    ensures reddit == [] ==> KeyInsights(reddit, rss).trends == ""
    ensures var s := KeyInsights(reddit, rss);
      var titles := PostTitles(s.topPosts);
      i < Min(|reddit|, TopPostLimit) ==>
        i < |titles| &&
        Offset(titles, i) + |titles[i]| <= |s.trends| &&
        s.trends[Offset(titles, i)..Offset(titles, i) + |titles[i]|] == s.topPosts[i].title &&
        (i + 1 < |titles| ==>
          Offset(titles, i + 1) == Offset(titles, i) + |titles[i]| + |Separator| &&
          Offset(titles, i + 1) <= |s.trends| &&
          s.trends[Offset(titles, i) + |titles[i]|..Offset(titles, i + 1)] == Separator) &&
        (i + 1 == |titles| ==> |s.trends| == Offset(titles, i) + |titles[i]|)
  {
    var s := KeyInsights(reddit, rss);
    if i < Min(|reddit|, TopPostLimit) {
      JoinAt(PostTitles(s.topPosts), i);
    }
  }

  /** Because the sort is done in place, a second call of extractKeyInsights
      on the same dataset sees the ranked records; it still returns the same
      summary. */
  lemma KeyInsightsAgain(reddit: seq<ForumRecord>, rss: seq<FeedRecord>)
    ensures KeyInsights(SortedByScore(reddit), rss) == KeyInsights(reddit, rss)
  {
    SortedByScoreOfRanked(SortedByScore(reddit));
  }

  /** Forum posts scored 5, 90, 12, 3, 40 and 1 give the top five 90, 40,
      12, 5, 3. */
  lemma TopRecordsExample()
    ensures var a, b, c, d, e, f :=
      ForumRecord("a", "", "", 5, 0), ForumRecord("b", "", "", 90, 0), ForumRecord("c", "", "", 12, 0),
      ForumRecord("d", "", "", 3, 0), ForumRecord("e", "", "", 40, 0), ForumRecord("f", "", "", 1, 0);
      TopRecords([a, b, c, d, e, f]) == [b, e, c, a, d]
  {
    var a, b, c, d, e, f :=
      ForumRecord("a", "", "", 5, 0), ForumRecord("b", "", "", 90, 0), ForumRecord("c", "", "", 12, 0),
      ForumRecord("d", "", "", 3, 0), ForumRecord("e", "", "", 40, 0), ForumRecord("f", "", "", 1, 0);
    var s, t := [a, b, c, d, e, f], [b, e, c, a, d, f];
    forall k
      ensures WithScore(t, k) == WithScore(s, k)
    {
      WithScoreOfSix(a, b, c, d, e, f, k);
      WithScoreOfSix(b, e, c, a, d, f, k);
    }
    StableRankingIsSortedByScore(s, t);
    assert t[..5] == [b, e, c, a, d];
  }
}
