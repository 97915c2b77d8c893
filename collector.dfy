/** The DataCollector object: its configured source lists, the collection
    loop over them, and the reduction of a collected dataset to a summary.
    CollectAllData returns the dataset's two lists as sequences, built by
    appending. ExtractKeyInsights takes them as arrays, because it sorts the
    forum list in place and its caller sees the ranked order afterwards. */
module Collector {
  import opened Records
  import opened Ranking
  import opened Insights

  /** The source lists: forum communities, blog feeds and other feeds. */
  datatype Sources = Sources(reddit: seq<string>, blogs: seq<string>, websites: seq<string>)

  const DefaultSources: Sources := Sources(
    ["startups", "SaaS", "EntrepreneurRideAlong"],
    ["https://hnrss.org/newest?q=saas"],
    ["https://trends.google.com/trends/trendingsearches/daily/rss"])

  /** Whatever the sources return, the collected forum records carry at most
      500 characters of content, and the feeds give at most five records per
      feed with at most 300 characters each. */
  lemma CollectedWithinBounds(sources: Sources, forumNet: string -> Fetch<RawPost>, feedNet: string -> Fetch<RawItem>)
    ensures var reddit := ForumAll(sources.reddit, forumNet);
      forall i :: 0 <= i < |reddit| ==> |reddit[i].content| <= ForumContentLimit
    ensures var rss := FeedAll(sources.blogs, feedNet) + FeedAll(sources.websites, feedNet);
      |rss| <= FeedItemLimit * (|sources.blogs| + |sources.websites|) &&
      forall i :: 0 <= i < |rss| ==> |rss[i].content| <= FeedContentLimit
  {
    FeedAllLength(sources.blogs, feedNet);
    FeedAllLength(sources.websites, feedNet);
    var blogs, websites := FeedAll(sources.blogs, feedNet), FeedAll(sources.websites, feedNet);
    var rss: seq<FeedRecord> := blogs + websites;
    forall i | 0 <= i < |rss|
      ensures |rss[i].content| <= FeedContentLimit
    {
      if i >= |blogs| {
        assert rss[i] == websites[i - |blogs|];
      }
    }
  }

  /** When every source fails, the collected dataset is empty: collection
      itself never fails. */
  lemma CollectedAllFailed(sources: Sources, forumNet: string -> Fetch<RawPost>, feedNet: string -> Fetch<RawItem>)
    requires forall i :: 0 <= i < |sources.reddit| ==> forumNet(sources.reddit[i]).Failed?
    requires forall i :: 0 <= i < |sources.blogs| ==> feedNet(sources.blogs[i]).Failed?
    requires forall i :: 0 <= i < |sources.websites| ==> feedNet(sources.websites[i]).Failed?
    ensures ForumAll(sources.reddit, forumNet) == []
    ensures FeedAll(sources.blogs, feedNet) + FeedAll(sources.websites, feedNet) == []
  {
    ForumAllAllFailed(sources.reddit, forumNet);
    FeedAllAllFailed(sources.blogs, feedNet);
    FeedAllAllFailed(sources.websites, feedNet);
  }

  class DataCollector {
    const sources: Sources

    constructor ()
      ensures sources == DefaultSources
    {
      sources := DefaultSources;
    }

    /** collectAllData: fetches every forum in turn and appends its records,
        then every blog feed followed by every other feed. forumNet and
        feedNet give the outcome of fetching one source. */
    method CollectAllData(forumNet: string -> Fetch<RawPost>, feedNet: string -> Fetch<RawItem>)
      returns (reddit: seq<ForumRecord>, rss: seq<FeedRecord>)
      ensures reddit == ForumAll(sources.reddit, forumNet)
      ensures rss == FeedAll(sources.blogs, feedNet) + FeedAll(sources.websites, feedNet)
    {
      var forums := sources.reddit;
      reddit := [];
      for i := 0 to |forums|
        invariant reddit == ForumAll(forums[..i], forumNet)
      {
        var posts := GetRedditData(forumNet(forums[i]));
        ForumAllPrefix(forums, i, forumNet);
        reddit := reddit + posts;
      }
      assert forums[..|forums|] == forums;

      var feeds := sources.blogs + sources.websites;
      rss := [];
      for i := 0 to |feeds|
        invariant rss == FeedAll(feeds[..i], feedNet)
      {
        var items := GetRssFeed(feedNet(feeds[i]));
        FeedAllPrefix(feeds, i, feedNet);
        rss := rss + items;
      }
      assert feeds[..|feeds|] == feeds;
      FeedAllAppend(sources.blogs, sources.websites, feedNet);
    }

    /** extractKeyInsights: ranks the forum records in place, then builds the
        summary from the ranked records and the untouched feed records. */
    method ExtractKeyInsights(reddit: array<ForumRecord>, rss: array<FeedRecord>) returns (summary: Summary)
      modifies reddit
      ensures reddit[..] == SortedByScore(old(reddit[..]))
      ensures rss[..] == old(rss[..])
      ensures summary == Summarise(reddit[..], rss[..])
      ensures summary == KeyInsights(old(reddit[..]), rss[..])
    {
      SortByScore(reddit);
      summary := Summarise(reddit[..], rss[..]);
    }
  }
}
