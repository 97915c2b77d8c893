/** The flat records a DataCollector builds from forum posts and feed items,
    and the per-source normalisation done by getRedditData and getRSSFeed.
    A network fetch is not modelled: its outcome is an input, either the
    parsed list of raw items or a failure of any kind (network error, bad
    JSON, a missing field that makes the mapping throw). */
module Records {

  datatype Option<T> = None | Some(value: T)

  /** Outcome of one fetch from one source. */
  datatype Fetch<T> = Fetched(items: seq<T>) | Failed

  /** One child of a forum listing, as the forum's JSON reports it. */
  datatype RawPost = RawPost(title: string, selftext: string, permalink: string, score: int, numComments: int)

  /** The normalised forum record. */
  datatype ForumRecord = ForumRecord(title: string, content: string, url: string, score: int, comments: int)

  /** One item of a parsed feed; every field may be absent. */
  datatype RawItem = RawItem(
    title: Option<string>,
    contentSnippet: Option<string>,
    content: Option<string>,
    link: Option<string>,
    pubDate: Option<string>)

  /** The normalised feed record. */
  datatype FeedRecord = FeedRecord(title: Option<string>, content: string, url: Option<string>, date: Option<string>)

  const ForumContentLimit: nat := 500
  const FeedContentLimit: nat := 300
  const FeedItemLimit: nat := 5
  const ForumUrlPrefix: string := "https://reddit.com"

  function Min(a: int, b: int): int { if a <= b then a else b }

  /** `s.slice(0, n)`: the first n characters of s, or all of s when it is shorter. */
  function Truncate(s: string, n: nat): (r: string)
    ensures |r| == Min(|s|, n)
    ensures r <= s
    ensures |s| <= n ==> r == s
  {
    s[..Min(|s|, n)]
  }

  /** JavaScript truthiness of a string field that may be undefined, as used
      by `||`: present and not empty. This defines that piece of JavaScript
      semantics and claims nothing beyond it. */
  predicate Truthy(o: Option<string>): (b: bool)
    ensures b <==> o.Some? && |o.value| > 0
  {
    o.Some? && o.value != ""
  }

  /** `item.contentSnippet || item.content || ''`. */
  function FeedContent(item: RawItem): (r: string)
    ensures Truthy(item.contentSnippet) ==> Some(r) == item.contentSnippet
    ensures !Truthy(item.contentSnippet) && Truthy(item.content) ==> Some(r) == item.content
    ensures r == "" <==> !Truthy(item.contentSnippet) && !Truthy(item.content)
  {
    if Truthy(item.contentSnippet) then item.contentSnippet.value
    else if Truthy(item.content) then item.content.value
    else ""
  }

  /** The record getRedditData maps one post to. */
  function ForumRecordOf(p: RawPost): (r: ForumRecord)
    ensures r.title == p.title && r.score == p.score && r.comments == p.numComments
    ensures r.content <= p.selftext && |r.content| == Min(|p.selftext|, ForumContentLimit)
    ensures r.url == ForumUrlPrefix + p.permalink
  {
    ForumRecord(p.title, Truncate(p.selftext, ForumContentLimit), ForumUrlPrefix + p.permalink, p.score, p.numComments)
  }

  /** The record getRSSFeed maps one item to. */
  function FeedRecordOf(item: RawItem): (r: FeedRecord)
    ensures r.title == item.title && r.url == item.link && r.date == item.pubDate
    ensures r.content <= FeedContent(item) && |r.content| == Min(|FeedContent(item)|, FeedContentLimit)
  {
    FeedRecord(item.title, Truncate(FeedContent(item), FeedContentLimit), item.link, item.pubDate)
  }

  /** getRedditData: every post of the listing, in order, or nothing on failure. */
  function GetRedditData(outcome: Fetch<RawPost>): (r: seq<ForumRecord>)
    ensures outcome.Failed? ==> r == []
    ensures outcome.Fetched? ==> |r| == |outcome.items|
    ensures outcome.Fetched? ==> forall i :: 0 <= i < |r| ==> r[i] == ForumRecordOf(outcome.items[i])
    ensures forall i :: 0 <= i < |r| ==> |r[i].content| <= ForumContentLimit
  {
    match outcome
    case Failed => []
    case Fetched(posts) => seq(|posts|, i requires 0 <= i < |posts| => ForumRecordOf(posts[i]))
  }

  /** getRSSFeed: the first five items of the feed, in order, or nothing on failure. */
  function GetRssFeed(outcome: Fetch<RawItem>): (r: seq<FeedRecord>)
    ensures |r| <= FeedItemLimit
    ensures outcome.Failed? ==> r == []
    ensures outcome.Fetched? ==> |r| == Min(|outcome.items|, FeedItemLimit)
    ensures outcome.Fetched? ==> forall i :: 0 <= i < |r| ==> r[i] == FeedRecordOf(outcome.items[i])
    ensures forall i :: 0 <= i < |r| ==> |r[i].content| <= FeedContentLimit
  {
    match outcome
    case Failed => []
    case Fetched(items) =>
      var kept := items[..Min(|items|, FeedItemLimit)];
      seq(|kept|, i requires 0 <= i < |kept| => FeedRecordOf(kept[i]))
  }

  /** The forum records collected from the sources `names`, one fetch per
      name, appended in the order of the names. */
  function ForumAll(names: seq<string>, net: string -> Fetch<RawPost>): (r: seq<ForumRecord>)
    ensures forall i :: 0 <= i < |r| ==> |r[i].content| <= ForumContentLimit
  {
    if names == [] then []
    else GetRedditData(net(names[0])) + ForumAll(names[1..], net)
  }

  /** The feed records collected from the feeds `urls`, appended in order. */
  function FeedAll(urls: seq<string>, net: string -> Fetch<RawItem>): (r: seq<FeedRecord>)
    ensures forall i :: 0 <= i < |r| ==> |r[i].content| <= FeedContentLimit
  {
    if urls == [] then []
    else GetRssFeed(net(urls[0])) + FeedAll(urls[1..], net)
  }

  /** Each feed contributes at most five records. */
  lemma {:induction false} FeedAllLength(urls: seq<string>, net: string -> Fetch<RawItem>)
    ensures |FeedAll(urls, net)| <= FeedItemLimit * |urls|
  {
    if urls != [] {
      FeedAllLength(urls[1..], net);
    }
  }

  /** Collecting from two lists of sources one after the other is collecting
      from their concatenation. */
  lemma {:induction false} ForumAllAppend(a: seq<string>, b: seq<string>, net: string -> Fetch<RawPost>)
    ensures ForumAll(a + b, net) == ForumAll(a, net) + ForumAll(b, net)
  {
    if a == [] {
      assert a + b == b;
    } else {
      assert (a + b)[1..] == a[1..] + b;
      ForumAllAppend(a[1..], b, net);
    }
  }

  lemma {:induction false} FeedAllAppend(a: seq<string>, b: seq<string>, net: string -> Fetch<RawItem>)
    ensures FeedAll(a + b, net) == FeedAll(a, net) + FeedAll(b, net)
  {
    if a == [] {
      assert a + b == b;
    } else {
      assert (a + b)[1..] == a[1..] + b;
      FeedAllAppend(a[1..], b, net);
    }
  }

  /** Collecting from one more source appends that source's records. */
  lemma ForumAllPrefix(names: seq<string>, i: nat, net: string -> Fetch<RawPost>)
    requires i < |names|
    ensures ForumAll(names[..i + 1], net) == ForumAll(names[..i], net) + GetRedditData(net(names[i]))
  {
    assert names[..i + 1] == names[..i] + [names[i]];
    ForumAllAppend(names[..i], [names[i]], net);
  }

  lemma FeedAllPrefix(urls: seq<string>, i: nat, net: string -> Fetch<RawItem>)
    requires i < |urls|
    ensures FeedAll(urls[..i + 1], net) == FeedAll(urls[..i], net) + GetRssFeed(net(urls[i]))
  {
    assert urls[..i + 1] == urls[..i] + [urls[i]];
    FeedAllAppend(urls[..i], [urls[i]], net);
  }

  /** A source whose fetch failed contributes nothing. */
  lemma ForumAllSkipsFailed(a: seq<string>, name: string, b: seq<string>, net: string -> Fetch<RawPost>)
    requires net(name).Failed?
    ensures ForumAll(a + [name] + b, net) == ForumAll(a + b, net)
  {
    assert ForumAll([name], net) == [] by {
      assert ([name])[1..] == [];
    }
    ForumAllAppend(a + [name], b, net);
    ForumAllAppend(a, [name], net);
    ForumAllAppend(a, b, net);
  }

  lemma FeedAllSkipsFailed(a: seq<string>, url: string, b: seq<string>, net: string -> Fetch<RawItem>)
    requires net(url).Failed?
    ensures FeedAll(a + [url] + b, net) == FeedAll(a + b, net)
  {
    assert FeedAll([url], net) == [] by {
      assert ([url])[1..] == [];
    }
    FeedAllAppend(a + [url], b, net);
    FeedAllAppend(a, [url], net);
    FeedAllAppend(a, b, net);
  }

  /** When every source fails, nothing is collected. */
  lemma {:induction false} ForumAllAllFailed(names: seq<string>, net: string -> Fetch<RawPost>)
    requires forall i :: 0 <= i < |names| ==> net(names[i]).Failed?
    ensures ForumAll(names, net) == []
  {
    if names != [] {
      ForumAllAllFailed(names[1..], net);
    }
  }

  lemma {:induction false} FeedAllAllFailed(urls: seq<string>, net: string -> Fetch<RawItem>)
    requires forall i :: 0 <= i < |urls| ==> net(urls[i]).Failed?
    ensures FeedAll(urls, net) == []
  {
    if urls != [] {
      FeedAllAllFailed(urls[1..], net);
    }
  }
}
