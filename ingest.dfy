/**
 * The feed ingester (`fetch_articles`).
 *
 * For each configured RSS feed whose category exists, the first five
 * entries are considered in order.  An entry whose link is already stored
 * (including one stored earlier in the same run) is skipped.  The article
 * text comes from the primary extractor; when that text is empty or shorter
 * than 300 characters, the fallback extractor is tried and its text is used
 * if it is longer.  An entry whose final text is shorter than 100
 * characters is skipped; otherwise an article is stored with a title cut to
 * 200 characters, the author or "Unknown", the entry's publication time or
 * the current time, and a three-sentence summary.
 *
 * The outside world is an input: the parsed feeds, the primary extractor's
 * texts and the fetched pages, each keyed by URL.
 */
module Ingest {
  import opened Text
  import opened Wrappers
  import opened Fallback
  import opened Summary

  /** A feed entry: link, title, optional author and optional publication time. */
  datatype Entry = Entry(link: string, title: string, author: Option<string>, published: Option<int>)

  /** A stored article; `category` is the key of the category it is filed under. */
  datatype Article = Article(
    title: string,
    author: string,
    content: string,
    url: string,
    source: string,
    publishedAt: int,
    summary: string,
    category: string)

  /** What the ingester reads from outside: feed entries per feed URL, extracted texts and fetched pages per article URL. */
  datatype World = World(feeds: map<string, seq<Entry>>, texts: map<string, string>, pages: map<string, Page>)

  /** `RSS_FEEDS`: category name and feed URL, in configuration order. */
  const RssFeeds: seq<(string, string)> := [
    ("Technology", "https://feeds.bbci.co.uk/news/technology/rss.xml"),
    ("World", "https://feeds.bbci.co.uk/news/world/rss.xml"),
    ("Business", "https://feeds.bbci.co.uk/news/business/rss.xml"),
    ("Science", "https://feeds.bbci.co.uk/news/science_and_environment/rss.xml"),
    ("Health", "https://feeds.bbci.co.uk/news/health/rss.xml")
  ]

  /** The keys of the categories `create_categories` makes. */
  const CategoryKeys: seq<string> := ["technology", "world", "business", "science", "health", "sports"]

  const EntriesPerFeed := 5
  const ShortPrimary := 300
  const MinContent := 100
  const MaxTitle := 200
  const SummarySentences := 3
  const UnknownAuthor := "Unknown"

  /** `feedparser.parse(url).entries`; an unknown feed has no entries. */
  function EntriesOf(w: World, feedUrl: string): seq<Entry>
  {
    if feedUrl in w.feeds then w.feeds[feedUrl] else []
  }

  /** `get_full_article_text(url)`; a failed extraction gives the empty text. */
  function PrimaryText(w: World, url: string): string
  {
    if url in w.texts then w.texts[url] else ""
  }

  /** The fetched page at `url`, or `None` when the request fails. */
  function PageOf(w: World, url: string): Option<Page>
  {
    if url in w.pages then Some(w.pages[url]) else None
  }

  /** `Article.objects.filter(url=url).exists()`. */
  predicate IsStored(store: seq<Article>, url: string)
  {
    exists a :: a in store && a.url == url
  }

  /** The primary text, replaced by the fallback text when the primary one is short and the fallback is longer. */
  function ChooseContent(primary: string, fallback: Option<string>): string
  {
    if |primary| < ShortPrimary && fallback.Some? && fallback.value != [] && |fallback.value| > |primary|
    then fallback.value
    else primary
  }

  /** The text an entry's article would get. */
  function ContentOf(w: World, url: string): string
  {
    ChooseContent(PrimaryText(w, url), FallbackText(PageOf(w, url)))
  }

  /** The article made from an entry, regardless of what is stored. */
  function MakeArticle(e: Entry, content: string, source: string, category: string, now: int): Article
  {
    Article(
      SliceTo(CleanHtml(e.title), MaxTitle),
      if e.author.Some? then e.author.value else UnknownAuthor,
      content,
      e.link,
      source,
      if e.published.Some? then e.published.value else now,
      Summarize(content, SummarySentences),
      category)
  }

  /** One entry: skipped when its link is stored or its text is too short, otherwise the article to store. */
  function ProcessEntry(store: seq<Article>, source: string, category: string, e: Entry, w: World, now: int): Option<Article>
  {
    if IsStored(store, e.link) then None
    else
      var content := ContentOf(w, e.link);
      if |content| < MinContent then None
      else Some(MakeArticle(e, content, source, category, now))
  }

  function OptionToSeq(o: Option<Article>): seq<Article>
  {
    if o.Some? then [o.value] else []
  }

  /** The articles created from `entries`, in order, each entry seeing the ones created before it. */
  function IngestEntries(store: seq<Article>, source: string, category: string, entries: seq<Entry>, w: World, now: int): (r: seq<Article>)
    ensures |r| <= |entries|
  {
    if entries == [] then []
    else
      var before := IngestEntries(store, source, category, entries[..|entries| - 1], w, now);
      before + OptionToSeq(ProcessEntry(store + before, source, category, entries[|entries| - 1], w, now))
  }

  /** One more entry: the articles of `entries[..i + 1]` are those of `entries[..i]` followed by entry `i`'s. */
  lemma {:induction false} IngestEntriesSnoc(store: seq<Article>, source: string, category: string, entries: seq<Entry>, i: nat, w: World, now: int)
    requires i < |entries|
    ensures var before := IngestEntries(store, source, category, entries[..i], w, now);
      IngestEntries(store, source, category, entries[..i + 1], w, now)
        == before + OptionToSeq(ProcessEntry(store + before, source, category, entries[i], w, now))
  {
    assert entries[..i + 1][..i] == entries[..i];
  }

  /** The entries of a feed that are looked at: its first five. */
  function Considered(w: World, feedUrl: string): (r: seq<Entry>)
    ensures |r| <= EntriesPerFeed
  {
    SliceTo(EntriesOf(w, feedUrl), EntriesPerFeed)
  }

  /** The articles created from one feed; a feed without a category creates none. */
  function IngestFeed(store: seq<Article>, feed: (string, string), w: World, now: int): seq<Article>
  {
    var category := Lower(feed.0);
    if category !in CategoryKeys then []
    else IngestEntries(store, feed.0, category, Considered(w, feed.1), w, now)
  }

  /** The articles created from `feeds`, in order. */
  function IngestFeeds(store: seq<Article>, feeds: seq<(string, string)>, w: World, now: int): seq<Article>
  {
    if feeds == [] then []
    else
      var before := IngestFeeds(store, feeds[..|feeds| - 1], w, now);
      before + IngestFeed(store + before, feeds[|feeds| - 1], w, now)
  }

  /** One more feed: the articles of `feeds[..f + 1]` are those of `feeds[..f]` followed by feed `f`'s. */
  lemma {:induction false} IngestFeedsSnoc(store: seq<Article>, feeds: seq<(string, string)>, f: nat, w: World, now: int)
    requires f < |feeds|
    ensures var before := IngestFeeds(store, feeds[..f], w, now);
      IngestFeeds(store, feeds[..f + 1], w, now) == before + IngestFeed(store + before, feeds[f], w, now)
  {
    assert feeds[..f + 1][..f] == feeds[..f];
  }

  // ------------------------------------------------------------ content choice

  /**
   * The fallback text replaces the primary text exactly when the primary
   * text is shorter than 300 characters and the fallback text is non-empty
   * and strictly longer; so the chosen text is never shorter than the
   * primary one, and a primary text of 300 characters or more is kept.
   */
  lemma {:induction false} ChooseContentSpec(primary: string, fallback: Option<string>)
    ensures var r := ChooseContent(primary, fallback);
      && (r == primary || fallback == Some(r))
      && (r != primary <==> |primary| < ShortPrimary && fallback.Some? && fallback.value != [] && |fallback.value| > |primary|)
      && |r| >= |primary|
      && (|primary| >= ShortPrimary ==> r == primary)
  {
  }

  /** A stored link or a text under 100 characters skips the entry; otherwise the article carries the entry's link and a bounded title. */
  lemma {:induction false} ProcessEntrySpec(store: seq<Article>, source: string, category: string, e: Entry, w: World, now: int)
    ensures var r := ProcessEntry(store, source, category, e, w, now);
      && (r.Some? <==> !IsStored(store, e.link) && |ContentOf(w, e.link)| >= MinContent)
      && (r.Some? ==>
        && r.value.url == e.link
        && r.value.content == ContentOf(w, e.link)
        && |r.value.content| >= MinContent
        && |r.value.title| <= MaxTitle
        && r.value.title <= CleanHtml(e.title)
        && r.value.source == source
        && r.value.category == category
        && r.value.summary == Summarize(r.value.content, SummarySentences)
        && r.value.author == (if e.author.Some? then e.author.value else UnknownAuthor))
  {
  }

  // ---------------------------------------------------------------- dedupe

  predicate UniqueUrls(store: seq<Article>)
  {
    forall i, j :: 0 <= i < j < |store| ==> store[i].url != store[j].url
  }

  lemma AppendAssoc(a: seq<Article>, b: seq<Article>, c: seq<Article>)
    ensures a + b + c == a + (b + c)
  {
  }

  lemma {:induction false} AppendUnstored(store: seq<Article>, a: Article)
    requires UniqueUrls(store) && !IsStored(store, a.url)
    ensures UniqueUrls(store + [a])
  {
    forall i | 0 <= i < |store| ensures store[i].url != a.url {
      assert store[i] in store;
    }
  }

  lemma {:induction false} StoredGrows(store: seq<Article>, more: seq<Article>, url: string)
    requires IsStored(store, url)
    ensures IsStored(store + more, url)
  {
    var a :| a in store && a.url == url;
    assert a in store + more;
  }

  /** Ingesting entries keeps the stored URLs pairwise different, and creates no article whose URL was stored. */
  lemma {:induction false} IngestEntriesUnique(store: seq<Article>, source: string, category: string, entries: seq<Entry>, w: World, now: int)
    requires UniqueUrls(store)
    ensures var created := IngestEntries(store, source, category, entries, w, now);
      && UniqueUrls(store + created)
      && forall a :: a in created ==> !IsStored(store, a.url)
  {
    if entries != [] {
      var before := IngestEntries(store, source, category, entries[..|entries| - 1], w, now);
      IngestEntriesUnique(store, source, category, entries[..|entries| - 1], w, now);
      var r := ProcessEntry(store + before, source, category, entries[|entries| - 1], w, now);
      if r.Some? {
        AppendUnstored(store + before, r.value);
        assert store + before + [r.value] == store + (before + [r.value]);
        if IsStored(store, r.value.url) {
          StoredGrows(store, before, r.value.url);
        }
      } else {
        assert before + OptionToSeq(r) == before;
      }
    }
  }

  /** A run keeps the stored URLs pairwise different: no URL is stored twice, even within one run. */
  lemma {:induction false} IngestFeedsUnique(store: seq<Article>, feeds: seq<(string, string)>, w: World, now: int)
    requires UniqueUrls(store)
    ensures var created := IngestFeeds(store, feeds, w, now);
      && UniqueUrls(store + created)
      && forall a :: a in created ==> !IsStored(store, a.url)
  {
    if feeds != [] {
      var before := IngestFeeds(store, feeds[..|feeds| - 1], w, now);
      IngestFeedsUnique(store, feeds[..|feeds| - 1], w, now);
      var feed := feeds[|feeds| - 1];
      var category := Lower(feed.0);
      var feedNew := IngestFeed(store + before, feed, w, now);
      if category in CategoryKeys {
        IngestEntriesUnique(store + before, feed.0, category, Considered(w, feed.1), w, now);
      }
      AppendAssoc(store, before, feedNew);
      forall a: Article | a in before + feedNew ensures !IsStored(store, a.url) {
        if a in feedNew && IsStored(store, a.url) {
          StoredGrows(store, before, a.url);
        }
      }
    }
  }

  // ------------------------------------------------------------ re-ingestion

  /** Every entry long enough to be stored has its link stored. */
  predicate Settled(store: seq<Article>, entries: seq<Entry>, w: World)
  {
    forall e :: e in entries && |ContentOf(w, e.link)| >= MinContent ==> IsStored(store, e.link)
  }

  lemma {:induction false} SettledGrows(store: seq<Article>, more: seq<Article>, entries: seq<Entry>, w: World)
    requires Settled(store, entries, w)
    ensures Settled(store + more, entries, w)
  {
    forall e | e in entries && |ContentOf(w, e.link)| >= MinContent ensures IsStored(store + more, e.link) {
      StoredGrows(store, more, e.link);
    }
  }

  /** After ingesting entries, each of them is either stored or too short. */
  lemma {:induction false} IngestEntriesSettles(store: seq<Article>, source: string, category: string, entries: seq<Entry>, w: World, now: int)
    ensures Settled(store + IngestEntries(store, source, category, entries, w, now), entries, w)
  {
    if entries != [] {
      var init := entries[..|entries| - 1];
      var e := entries[|entries| - 1];
      var before := IngestEntries(store, source, category, init, w, now);
      IngestEntriesSettles(store, source, category, init, w, now);
      var added := OptionToSeq(ProcessEntry(store + before, source, category, e, w, now));
      SettledGrows(store + before, added, init, w);
      AppendAssoc(store, before, added);
      if |ContentOf(w, e.link)| >= MinContent {
        if IsStored(store + before, e.link) {
          StoredGrows(store + before, added, e.link);
        } else {
          assert added[0] in store + before + added;
        }
      }
      SnocSplit(entries);
      SettledSnoc(store + before + added, init, e, w);
    }
  }

  /** A sequence is its front followed by its last element. */
  lemma SnocSplit<T>(s: seq<T>)
    requires s != []
    ensures s == s[..|s| - 1] + [s[|s| - 1]]
  {
  }

  lemma {:induction false} SettledSnoc(store: seq<Article>, init: seq<Entry>, e: Entry, w: World)
    requires Settled(store, init, w)
    requires |ContentOf(w, e.link)| >= MinContent ==> IsStored(store, e.link)
    ensures Settled(store, init + [e], w)
  {
    forall x | x in init + [e] && |ContentOf(w, x.link)| >= MinContent ensures IsStored(store, x.link) {
      if x != e {
        assert x in init;
      }
    }
  }

  /** Entries that are all stored or too short create nothing. */
  lemma {:induction false} SettledCreatesNothing(store: seq<Article>, source: string, category: string, entries: seq<Entry>, w: World, now: int)
    requires Settled(store, entries, w)
    ensures IngestEntries(store, source, category, entries, w, now) == []
  {
    if entries != [] {
      var init := entries[..|entries| - 1];
      assert Settled(store, init, w) by {
        forall e | e in init ensures e in entries {
        }
      }
      SettledCreatesNothing(store, source, category, init, w, now);
      assert store + [] == store;
    }
  }

  /** If the feed has a category, each of its considered entries is stored or too short. */
  predicate FeedSettled(store: seq<Article>, feed: (string, string), w: World)
  {
    Lower(feed.0) in CategoryKeys ==> Settled(store, Considered(w, feed.1), w)
  }

  /** Every considered entry of every feed with a category is settled by `store`. */
  predicate FeedsSettled(store: seq<Article>, feeds: seq<(string, string)>, w: World)
  {
    forall k :: 0 <= k < |feeds| ==> FeedSettled(store, feeds[k], w)
  }

  lemma {:induction false} FeedsSettledGrows(store: seq<Article>, more: seq<Article>, feeds: seq<(string, string)>, w: World)
    requires FeedsSettled(store, feeds, w)
    ensures FeedsSettled(store + more, feeds, w)
  {
    forall k | 0 <= k < |feeds| ensures FeedSettled(store + more, feeds[k], w) {
      if Lower(feeds[k].0) in CategoryKeys {
        SettledGrows(store, more, Considered(w, feeds[k].1), w);
      }
    }
  }

  lemma {:induction false} FeedsSettledSnoc(store: seq<Article>, init: seq<(string, string)>, feed: (string, string), w: World)
    requires FeedsSettled(store, init, w) && FeedSettled(store, feed, w)
    ensures FeedsSettled(store, init + [feed], w)
  {
    forall k | 0 <= k < |init| + 1 ensures FeedSettled(store, (init + [feed])[k], w) {
      if k < |init| {
        assert (init + [feed])[k] == init[k];
      }
    }
  }

  /** After a run, every considered entry is stored or too short. */
  lemma {:induction false} IngestFeedsSettles(store: seq<Article>, feeds: seq<(string, string)>, w: World, now: int)
    ensures FeedsSettled(store + IngestFeeds(store, feeds, w, now), feeds, w)
  {
    if feeds != [] {
      var init := feeds[..|feeds| - 1];
      var feed := feeds[|feeds| - 1];
      var before := IngestFeeds(store, init, w, now);
      IngestFeedsSettles(store, init, w, now);
      var feedNew := IngestFeed(store + before, feed, w, now);
      FeedsSettledGrows(store + before, feedNew, init, w);
      if Lower(feed.0) in CategoryKeys {
        IngestEntriesSettles(store + before, feed.0, Lower(feed.0), Considered(w, feed.1), w, now);
      }
      assert FeedSettled(store + before + feedNew, feed, w);
      FeedsSettledSnoc(store + before + feedNew, init, feed, w);
      AppendAssoc(store, before, feedNew);
      assert feeds == init + [feed];
    }
  }

  /** A store that settles every considered entry makes a run create nothing. */
  lemma {:induction false} FeedsSettledCreateNothing(store: seq<Article>, feeds: seq<(string, string)>, w: World, now: int)
    requires FeedsSettled(store, feeds, w)
    ensures IngestFeeds(store, feeds, w, now) == []
  {
    if feeds != [] {
      var init := feeds[..|feeds| - 1];
      var feed := feeds[|feeds| - 1];
      assert FeedsSettled(store, init, w);
      FeedsSettledCreateNothing(store, init, w, now);
      assert store + [] == store;
      if Lower(feed.0) in CategoryKeys {
        SettledCreatesNothing(store, feed.0, Lower(feed.0), Considered(w, feed.1), w, now);
      }
    }
  }

  /** Running the ingester a second time against the same feeds and pages creates no article. */
  lemma {:induction false} ReingestCreatesNothing(store: seq<Article>, w: World, now: int, later: int)
    ensures IngestFeeds(store + IngestFeeds(store, RssFeeds, w, now), RssFeeds, w, later) == []
  {
    IngestFeedsSettles(store, RssFeeds, w, now);
    FeedsSettledCreateNothing(store + IngestFeeds(store, RssFeeds, w, now), RssFeeds, w, later);
  }

  // ------------------------------------------------------------- feed cap

  /** Each created article comes from one of the first five entries of a feed with a category, and is named after it. */
  lemma {:induction false} IngestEntriesFromEntries(store: seq<Article>, source: string, category: string, entries: seq<Entry>, w: World, now: int)
    ensures forall a :: a in IngestEntries(store, source, category, entries, w, now) ==>
      a.source == source && a.category == category && exists e :: e in entries && e.link == a.url
  {
    if entries != [] {
      var init := entries[..|entries| - 1];
      IngestEntriesFromEntries(store, source, category, init, w, now);
      forall e | e in init ensures e in entries {
      }
      assert entries[|entries| - 1] in entries;
    }
  }

  /** `a` was made from one of the considered entries of the `k`-th feed, which has a category. */
  predicate FromFeedAt(a: Article, feeds: seq<(string, string)>, k: int, w: World)
    requires 0 <= k < |feeds|
  {
    && feeds[k].0 == a.source
    && Lower(feeds[k].0) == a.category
    && a.category in CategoryKeys
    && exists e :: e in Considered(w, feeds[k].1) && e.link == a.url
  }

  predicate FromFeed(a: Article, feeds: seq<(string, string)>, w: World)
  {
    exists k :: 0 <= k < |feeds| && FromFeedAt(a, feeds, k, w)
  }

  /** An article from one of the first feeds is from the whole list. */
  lemma {:induction false} FromFeedExtends(a: Article, feeds: seq<(string, string)>, w: World)
    requires feeds != [] && FromFeed(a, feeds[..|feeds| - 1], w)
    ensures FromFeed(a, feeds, w)
  {
    var init := feeds[..|feeds| - 1];
    var k :| 0 <= k < |init| && FromFeedAt(a, init, k, w);
    assert feeds[k] == init[k];
    assert FromFeedAt(a, feeds, k, w);
  }

  /** A run creates at most five articles per feed, each from one of the first five entries of its own feed. */
  lemma {:induction false} IngestFeedsCapped(store: seq<Article>, feeds: seq<(string, string)>, w: World, now: int)
    ensures var created := IngestFeeds(store, feeds, w, now);
      && |created| <= EntriesPerFeed * |feeds|
      && forall a :: a in created ==> FromFeed(a, feeds, w)
  {
    if feeds != [] {
      var init := feeds[..|feeds| - 1];
      var n := |feeds| - 1;
      var feed := feeds[n];
      var before := IngestFeeds(store, init, w, now);
      IngestFeedsCapped(store, init, w, now);
      var feedNew := IngestFeed(store + before, feed, w, now);
      if Lower(feed.0) in CategoryKeys {
        IngestEntriesFromEntries(store + before, feed.0, Lower(feed.0), Considered(w, feed.1), w, now);
      }
      forall a | a in before + feedNew ensures FromFeed(a, feeds, w) {
        if a in before {
          FromFeedExtends(a, feeds, w);
        } else {
          assert FromFeedAt(a, feeds, n, w);
        }
      }
    }
  }

  // ---------------------------------------------------------------- the store

  /** The stored articles (`Article.objects`). */
  class ArticleStore {
    var articles: seq<Article>

    constructor(initial: seq<Article>)
      ensures articles == initial
    {
      articles := initial;
    }

    /**
     * The body of the entry loop: skip a stored link, choose the text, skip
     * a short text, otherwise summarise and store the article.  Returns what
     * was stored.
     */
    method IngestEntry(name: string, category: string, entry: Entry, w: World, now: int) returns (added: seq<Article>)
      modifies this
      ensures added == OptionToSeq(ProcessEntry(old(articles), name, category, entry, w, now))
      ensures articles == old(articles) + added
    {
      added := [];
      if IsStored(articles, entry.link) {
        return;
      }
      var content := PrimaryText(w, entry.link);
      if |content| < ShortPrimary {
        var fallback := FetchFallbackContent(PageOf(w, entry.link));
        if fallback.Some? && fallback.value != [] && |fallback.value| > |content| {
          content := fallback.value;
        }
      }
      if |content| < MinContent {
        return;
      }
      var summary := GenerateSummary(content, SummarySentences);
      var published := if entry.published.Some? then entry.published.value else now;
      var author := if entry.author.Some? then entry.author.value else UnknownAuthor;
      var article := Article(SliceTo(CleanHtml(entry.title), MaxTitle), author, content, entry.link, name, published, summary, category);
      articles := articles + [article];
      added := [article];
    }

    /** The body of the feed loop: the first five entries of one feed, if its category exists. */
    method IngestFeedEntries(feed: (string, string), w: World, now: int) returns (fromFeed: seq<Article>)
      modifies this
      ensures fromFeed == IngestFeed(old(articles), feed, w, now)
      ensures articles == old(articles) + fromFeed
    {
      fromFeed := [];
      var name, feedUrl := feed.0, feed.1;
      var category := Lower(name);
      if category !in CategoryKeys {
        return;
      }
      var entries := SliceTo(EntriesOf(w, feedUrl), EntriesPerFeed);
      var i := 0;
      while i < |entries|
        invariant 0 <= i <= |entries|
        invariant fromFeed == IngestEntries(old(articles), name, category, entries[..i], w, now)
        invariant articles == old(articles) + fromFeed
      {
        var added := IngestEntry(name, category, entries[i], w, now);
        IngestEntriesSnoc(old(articles), name, category, entries, i, w, now);
        AppendAssoc(old(articles), fromFeed, added);
        fromFeed := fromFeed + added;
        i := i + 1;
      }
      assert entries[..i] == entries;
    }

    /**
     * `fetch_articles`: walks the configured feeds and their first five
     * entries, storing one article per new entry with enough text; returns
     * the created articles in order.
     */
    method FetchArticles(w: World, now: int) returns (created: seq<Article>)
      modifies this
      ensures created == IngestFeeds(old(articles), RssFeeds, w, now)
      ensures articles == old(articles) + created
    {
      created := IngestFeedList(RssFeeds, w, now);
    }

    /** The feed loop of `fetch_articles` over a feed configuration. */
    method IngestFeedList(feeds: seq<(string, string)>, w: World, now: int) returns (created: seq<Article>)
      modifies this
      ensures created == IngestFeeds(old(articles), feeds, w, now)
      ensures articles == old(articles) + created
    {
      created := [];
      var f := 0;
      while f < |feeds|
        invariant 0 <= f <= |feeds|
        invariant created == IngestFeeds(old(articles), feeds[..f], w, now)
        invariant articles == old(articles) + created
      {
        var fromFeed := IngestFeedEntries(feeds[f], w, now);
        IngestFeedsSnoc(old(articles), feeds, f, w, now);
        AppendAssoc(old(articles), created, fromFeed);
        created := created + fromFeed;
        f := f + 1;
      }
      assert feeds[..f] == feeds;
    }
  }
}
