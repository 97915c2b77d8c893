# DataCollector, modelled in Dafny

The `DataCollector` class of a market-research tool gathers posts from three
forum communities and items from two RSS feeds. It normalises each post and
item into a flat record, appends the records in source order, and reduces the
collected dataset to a short summary. The summary holds up to five top
posts (title, score, url), the forum titles joined with ". " as `trends`, the
titles of the first three feed items joined with ". " as `insights`, and one
record count per source.

The project has four modules:

- `Records` (records.dfy): the raw and normalised records and the per-source
  normalisation `GetRedditData` / `GetRssFeed`. It also defines `ForumAll` /
  `FeedAll`, the records collected from a list of sources. A fetch is not
  modelled. Its outcome is an input, `Fetched(items)` or `Failed`, and a
  failure covers every error that makes the source's `try` block throw.
- `Ranking` (ranking.dfy): the descending stable sort by score. It is
  specified by the insertion-sort function `SortedByScore`, and
  `SortByScore`, an in-place insertion sort on an array, is proved against
  it. The lemmas show that `SortedByScore` is the one stable descending
  ordering of its input. Any stable sort, such as the JavaScript engine's,
  therefore gives the same result.
- `Insights` (insights.dfy): the summary. `Summarise` builds it from the
  ranked records, and `KeyInsights` builds it from the dataset as it was
  before the sort.
- `Collector` (collector.dfy): the `DataCollector` class with its source
  lists. `CollectAllData` runs the two collection loops. `ExtractKeyInsights`
  sorts the forum records in place (the caller's array is reordered, as in
  the source) and returns the summary.

A network is modelled as a function from a source name (a community name or
a feed URL) to the outcome of fetching it. Scores are integers.

## Model

| member | source | states |
|---|---|---|
| Records.Truthy | src/dataCollector.js:53 | an optional string is truthy exactly when it is present and non-empty |
| Records.Truncate | src/dataCollector.js:37 | the first min(\|s\|, n) characters of s: a prefix of s, equal to s when s is no longer than n |
| Records.FeedContent | src/dataCollector.js:53 | the snippet when it is a non-empty string, else the full content when that is non-empty, else ""; empty exactly when neither is present and non-empty |
| Records.ForumRecordOf | src/dataCollector.js:35-41 | title, score and comment count copied; content is the first min(\|selftext\|, 500) characters of the post text; url is "https://reddit.com" followed by the permalink |
| Records.FeedRecordOf | src/dataCollector.js:51-56 | title, link and date copied unchanged (absent stays absent); content is the first min(\|c\|, 300) characters of the fallback content c |
| Records.GetRedditData | src/dataCollector.js:24-46 | a failed fetch gives no records; otherwise one record per post of the listing, in listing order; every content is at most 500 characters |
| Records.GetRssFeed | src/dataCollector.js:48-61 | at most 5 records; a failed fetch gives none; otherwise the first min(\|items\|, 5) items, in feed order, each normalised; every content is at most 300 characters |
| Records.ForumAll | src/dataCollector.js:69-73 | every collected forum record has content of at most 500 characters |
| Records.FeedAll | src/dataCollector.js:75-79 | every collected feed record has content of at most 300 characters |
| Records.FeedAllLength | src/dataCollector.js:51 | collecting from n feeds yields at most 5n records |
| Records.ForumAllAppend | src/dataCollector.js:70-73 | collecting from a + b is collecting from a and then appending what b yields: the loop's append order |
| Records.FeedAllAppend | src/dataCollector.js:76-79 | the same for feeds, which is why blogs and then websites are collected as one concatenated list |
| Records.ForumAllSkipsFailed | src/dataCollector.js:42-45 | a community whose fetch fails contributes nothing and does not disturb the records of the others |
| Records.FeedAllSkipsFailed | src/dataCollector.js:57-60 | a feed whose fetch fails contributes nothing and does not disturb the records of the others |
| Records.ForumAllAllFailed | src/dataCollector.js:42-45 | if every community fails, no forum records are collected |
| Records.FeedAllAllFailed | src/dataCollector.js:57-60 | if every feed fails, no feed records are collected |
| Ranking.SortedByScore | src/dataCollector.js:88 | the ranking has the input's length and scores that never increase along it |
| Ranking.SortedByScorePermutes | src/dataCollector.js:88 | the ranking is a permutation of the input (equal multisets) |
| Ranking.SortedByScoreStable | src/dataCollector.js:88 | for every score, the records with that score keep their input order (the comparator returns 0 on ties and the sort is stable) |
| Ranking.StableRankingIsSortedByScore | src/dataCollector.js:88 | any ordering that does not increase in score and keeps each score's records in input order is exactly SortedByScore, so every stable descending sort agrees with the model |
| Ranking.SortedByScoreOfRanked | src/dataCollector.js:88 | ranking an already ranked sequence leaves it unchanged |
| Ranking.SortByScore | src/dataCollector.js:87-88 | sorting in place leaves the array holding SortedByScore of its old contents |
| Insights.Join | src/dataCollector.js:105-106 | `join('. ')`: "" for no parts, and the first part opens the result |
| Insights.JoinAt | src/dataCollector.js:105-106 | the joined string can be read back: part i lies at its offset, followed by ". " unless it is the last part, and the last part ends the string |
| Insights.JoinLength | src/dataCollector.js:105-106 | the joined length is the sum of the parts' lengths plus 2 × (\|parts\| − 1) for the separators, and 0 for no parts |
| Insights.TitleText | src/dataCollector.js:106 | a present title is kept, and an undefined one is rendered by `join` as "" |
| Insights.TopReddit | src/dataCollector.js:89-94 | min(\|ranked\|, 5) entries, entry i holding the title, score and url of ranked record i |
| Insights.TopRss | src/dataCollector.js:95-100 | min(\|rss\|, 3) entries, entry i holding the title and url of feed record i |
| Insights.Summarise | src/dataCollector.js:86-112 | from the ranked records: min(\|ranked\|, 5) top posts projecting the first ranked records, trends and insights the joins of their titles and of the first feed titles, counts the full list sizes |
| Insights.KeyInsights | src/dataCollector.js:84-115 | the summary of the unsorted dataset: min(\|reddit\|, 5) top posts in non-increasing score order, and counts that are the sizes of the whole dataset, not of the top lists |
| Insights.KeyInsightsTopPosts | src/dataCollector.js:87-94 | topPosts has min(\|reddit\|, 5) entries, each the projection of the matching top-ranked record, in non-increasing score order |
| Insights.KeyInsightsSelectsHighest | src/dataCollector.js:87-89 | the top records come from the input, and no record left out scores higher than any record selected |
| Insights.TopRecordsExample | src/dataCollector.js:87-89 | posts scored 5, 90, 12, 3, 40 and 1 give the top five scored 90, 40, 12, 5 and 3 |
| Insights.KeyInsightsTiesInInputOrder | src/dataCollector.js:88-89 | among records of equal score, the selected ones are the earliest in input order |
| Insights.KeyInsightsFeed | src/dataCollector.js:95-100 | insights joins the titles of the first min(\|rss\|, 3) feed items, taken in collection order, with a missing title rendered as ""; those items are not kept in the summary |
| Insights.KeyInsightsTrends | src/dataCollector.js:105 | trends is the join of the topPosts titles: it is "" when there are no forum records; title i can be read back at its offset, followed by ". " unless it is the last, and the last title ends the string |
| Insights.KeyInsightsAgain | src/dataCollector.js:84-115 | calling again on the dataset after its in-place sort gives the same summary |
| Collector.CollectedWithinBounds | src/dataCollector.js:63-82 | whatever the sources return, forum contents are at most 500 characters, feed contents at most 300, and there are at most 5 feed records per feed |
| Collector.CollectedAllFailed | src/dataCollector.js:63-82 | when every source fails, collection still succeeds, with both lists empty |
| Collector.DataCollector.constructor | src/dataCollector.js:8-22 | the sources are the three communities, the one blog feed and the one trends feed, in that order |
| Collector.DataCollector.CollectAllData | src/dataCollector.js:63-82 | the forum list is every community's records in source order; the feed list is every blog's records and then every website's records |
| Collector.DataCollector.ExtractKeyInsights | src/dataCollector.js:84-115 | the forum array is left in ranked order and the feed array is unchanged; the summary is KeyInsights of the dataset as it was before the call |

## Left out

- Network I/O is not modelled. This covers the `node-fetch` request, its User-Agent header, the URL built from the community name, `timeRange` ("month") and `limit=10`, the JSON decoding, and `rss-parser`. A fetch is an input outcome, and any failure in it, or in the field accesses on its result, is `Failed`.
- A network is a function of the source name. The model cannot express a source listed twice that answers differently on each fetch.
- The `await`s run one after another, and that order is kept. Concurrency with other requests is not modelled.
- `console.error` logging on a failed fetch is not modelled, because it has no effect on the returned data.
- Scores are modelled as integers. JavaScript numbers are doubles, and a missing or non-numeric score (NaN in the comparator) is not modelled.
- `Records.ForumRecordOf`: a post without a title or comment count gets `undefined` in that field in JavaScript, and a post without a permalink gets the url "https://reddit.comundefined". The model requires all three fields to be present. A post without `selftext` makes the mapping throw, which is covered by `Failed`.
- Records.Truncate: a Dafny `string` is a sequence of Unicode scalar values, while JavaScript's `slice` counts UTF-16 code units. The model reads each `char` as one code unit, so it matches the source only for text inside the Basic Multilingual Plane. Outside that plane, for example emoji, `slice(0, 500)` keeps 500 code units and can cut a surrogate pair in half. The model would keep 500 characters, up to 1000 code units, so the 500- and 300-character bounds hold only for such text.
- Ranking.SortByScore: the JavaScript engine's sort algorithm is replaced by insertion sort. Ranking.StableRankingIsSortedByScore shows that any stable descending sort gives the same order.
- A dataset with no records at all is returned as is. No error is raised for it, because the code has no such check.
- The trending-terms extraction and any caching are not part of this model, because the class has no such code.
- server.js and public/app.js, the HTTP server and the browser client, are not part of this model.
