# newsgenie text pipeline and login streak, in Dafny

This project models the deterministic core of the newsgenie news site, and
proves properties of that model:

- **`clean_text_for_speech`** (`speech.dfy`, module `Speech`). Summary text is
  normalised before speech synthesis. Line-break runs and whitespace runs are
  collapsed to one space, characters outside `[\w\s,.!?'"]` are deleted, and
  the ends are stripped.
- **`generate_summary`** (`summary.dfy`, module `Summary`). This is the
  extractive summariser:
  - the text is split on runs of `.!?`;
  - fragments are stripped, and those of at most 25 characters are dropped;
  - each sentence gets an integer score: keywords, length, position, digits and quotes;
  - a stable sort by descending score is done, the first `limit` entries are kept, and a stable sort by original index follows;
  - the result is joined with `". "` and closed with a period.
- **The fallback extractor's selector cascade** (`fallback.dfy`, module
  `Fallback`). The first selector that matches at least three elements and
  has a paragraph longer than 40 characters wins. At most 12 of its
  paragraphs are joined with blank lines. The result is kept only if it is
  longer than 200 characters.
- **`fetch_articles`** (`ingest.dfy`, module `Ingest`). This is the
  per-entry ingestion policy:
  - configured feeds are visited in order, and a feed without a category is skipped;
  - the first five entries of each feed are considered;
  - links that are already stored are skipped;
  - the primary text is chosen, or the fallback text when the primary text is short;
  - texts under 100 characters are skipped;
  - the title is capped at 200 characters, and the article is summarised and stored.
- **`update_streak`** (`streak.dfy`, module `Streak`). This is the
  three-branch login-streak update on a profile.

Shared string helpers live in `text.dfy` (module `Text`): ASCII character
classes, `str.strip`, `str.lower`, substring search, Python slicing and
`str.join`. `wrappers.dfy` holds `Option`.

The code that changes state is modelled in imperative form:
- the scoring loop: `Summary.ScoreAll`, `Summary.ScoreSentence` and `Summary.KeywordPoints`;
- the cascade loop: `Fallback.FetchFallbackContent`, `Fallback.CascadeBlocks` and `Fallback.CollectLongBlocks`;
- the feed and entry loops over a mutable article store: the class `Ingest.ArticleStore`;
- the profile update: the class `Streak.Profile`.

Each of these methods is proved equal to a functional specification, and the
source's promises are proved about that specification as lemmas.

The outside world is an input:
- `Ingest.World` holds the parsed feed entries per feed URL, the primary extractor's text per article URL, and the parsed page per article URL.
- A parsed page (`Fallback.Page`) maps each selector to the texts of its matching elements, in document order.
- The current time is a parameter `now`, and "today" is an integer day number.

`clean_text_for_speech` is not idempotent: `"a - b"` cleans to `"a  b"`,
which cleans to `"a b"` (`Speech.CleanNotIdempotent`). Text already in
cleaned form is left unchanged (`Speech.CleanKeepsSpeechReady`). A selector
with three or more matches but no paragraph longer than 40 characters does
not stop the cascade. Keyword matching is substring containment, so `new`
matches inside `news`.

## Model

| member | source | states |
|---|---|---|
| Speech.CleanForSpeech | news/utils/scraper.py:21-28 | Empty or `None` input gives `""`. Otherwise every output character is a word character, a space or one of `,.!?'"`. The only whitespace left is `' '`, and there is no space at either end. |
| Speech.CollapseRuns | news/utils/scraper.py:25-26 | After a run substitution, every character is the replacement space or outside the collapsed class. |
| Speech.KeptAreSpeechChars | news/utils/scraper.py:26-27 | After whitespace is collapsed and the deletion step runs, only word characters, the plain space and `,.!?'"` remain. |
| Speech.StrippedSpeech | news/utils/scraper.py:28 | Stripping such text keeps those characters and leaves no space at either end. |
| Speech.CollapseKeepsVisible | news/utils/scraper.py:25-26 | Collapsing line-break or whitespace runs neither adds nor removes a non-whitespace character. |
| Speech.DeletionKeepsVisible | news/utils/scraper.py:27 | Every visible character (allowed and not whitespace) survives the deletion step, in order, and no other visible character appears. |
| Speech.StripKeepsVisible | news/utils/scraper.py:28 | Every visible character survives `str.strip`, in order, and no other visible character appears. |
| Speech.CleanKeepsVisibleText | news/utils/scraper.py:21-28 | Cleaning keeps every allowed non-whitespace character of the input, in order, and introduces none. |
| Speech.CleanKeepsSpeechReady | news/utils/scraper.py:21-28 | Text made only of speech characters, with no double space and no space at either end, is returned unchanged. |
| Speech.CleanNotIdempotent | news/utils/scraper.py:25-28 | Cleaning `"a - b"` gives `"a  b"`, and cleaning that again gives `"a b"`: the function is not idempotent. |
| Summary.FirstTerminator | news/utils/scraper.py:91 | The result is the first position holding one of `.!?`, or the length when there is none. |
| Summary.RunEnd | news/utils/scraper.py:91 | The result is the end of the maximal run of `.!?` starting at the given position. |
| Summary.SplitOnTerminators | news/utils/scraper.py:91 | `re.split(r'[.!?]+', …)` returns at least one piece, and no piece contains `.`, `!` or `?`. |
| Summary.SplitLosesOnlyTerminators | news/utils/scraper.py:91 | The pieces, concatenated, are the text with its `.!?` characters removed. |
| Summary.LongSentences | news/utils/scraper.py:92 | The stripped-and-filtered list has at most one sentence per fragment. |
| Summary.LongSentencesExact | news/utils/scraper.py:92 | A fragment's stripped form is kept if it is longer than 25 characters. Every kept sentence is the stripped form of some fragment. |
| Summary.LongSentencesAreSentences | news/utils/scraper.py:92 | Every kept sentence is stripped, longer than 25 characters, and free of `.!?`. |
| Summary.SentencesAreSentences | news/utils/scraper.py:91-92 | Every sentence of any text is stripped, longer than 25 characters, and free of `.!?`. |
| Summary.Sentences | news/utils/scraper.py:90-92 | The sentence list of a text. Its promises are stated by `SentencesAreSentences` (every sentence is stripped, longer than 25 characters and free of `.!?`), `LongSentencesExact` (exactly the long stripped fragments) and `SentencesOfJoin` (the join round trip). |
| Summary.SentencesOfJoin | news/utils/scraper.py:91-98 | Round trip: the sentences of `". ".join(ss) + "."` are `ss`, for any non-empty list of such sentences. |
| Summary.SummaryWithoutSentences | news/utils/scraper.py:94-95 | Without sentences, a text of at most 300 characters is returned as it is. A longer one gives its first 300 characters followed by `...`. |
| Summary.KeywordsDistinct | news/utils/scraper.py:100-104 | The 18 keywords are pairwise different. |
| Summary.MatchedKeywordsStep | news/utils/scraper.py:111-113 | Looking at one more keyword adds one match exactly when it occurs in the lowercase sentence. |
| Summary.KeywordPoints | news/utils/scraper.py:111-113 | The keyword loop awards 2 times the number of distinct keywords that occur as substrings. |
| Summary.ScoreSentence | news/utils/scraper.py:107-131 | The per-sentence loop computes `Score`: the keyword points, +3 or +1 for length, +4, +3 or +1 for position, +1 for a digit and +2 for a quote. |
| Summary.Score | news/utils/scraper.py:107-131 | The score of sentence `i`: 2 per distinct keyword found, +3 or +1 for length, +4, +3 or +1 for position, +1 for a digit, +2 for a quote. `ScoreSentence` proves the loop of lines 107-131 computes it, and `KeywordPoints` and `MatchedKeywordsStep` state the keyword term. |
| Summary.ScoreAll | news/utils/scraper.py:106-133 | `scored_sentences` holds one `(sentence, Score, index)` entry per sentence, in order. |
| Summary.Ranking | news/utils/scraper.py:106-133 | The ranking has one entry per sentence. |
| Summary.SentencesOf | news/utils/scraper.py:139 | The list of sentences has one per entry. |
| Summary.InsertStable | news/utils/scraper.py:135-137 | Insertion adds exactly the one element: the length grows by one and the multiset gains it. |
| Summary.StableSort | news/utils/scraper.py:135-137 | The sort is a permutation of its input. |
| Summary.InsertOrdered | news/utils/scraper.py:135-137 | Inserting after every element with a key that is not larger keeps the sequence ordered by key, with ties by original index. |
| Summary.StableSortOrdered | news/utils/scraper.py:135-137 | The sort orders by key, and equal keys stay in original-index order: the sort is stable. |
| Summary.SelectTop | news/utils/scraper.py:135-137 | The two sorts and the cut to `limit`. Its promises are stated by `SelectTopSpec` (count, membership, index order, dominance with lower-index tie-break), `SelectedDominate`, `SelectedFromRanking` and `SelectedIndicesDistinct`. |
| Summary.SelectTopSpec | news/utils/scraper.py:135-137 | Exactly `limit` entries are selected, each one the ranking's entry at its index, in increasing original index. Each selected entry outscores each unselected one, or ties with it at a lower index. |
| Summary.SameElements | news/utils/scraper.py:135 | A sorted list has the same elements as the list it came from. |
| Summary.SelectedFromRanking | news/utils/scraper.py:135-136 | Every kept entry is the ranking's entry at its own index. |
| Summary.SelectedIndicesDistinct | news/utils/scraper.py:135-137 | The kept entries have pairwise different indices, so the second sort puts them in strictly increasing index. |
| Summary.SelectedDominate | news/utils/scraper.py:135-136 | A kept entry outscores every entry left out, or ties with it at a lower index. |
| Summary.PrefixDominates | news/utils/scraper.py:136 | In a score-ordered list, an entry of a prefix precedes every entry after it. |
| Summary.Summarize | news/utils/scraper.py:88-143 | `generate_summary` as a function. Its promises are stated by `GenerateSummary` (the imperative code computes it), `SummaryWithoutSentences`, `KeptSentences`, `SummaryRoundTrip`, `SummaryIsJoin`, `SummaryEndsWithPeriod`, `SummaryFixedPoint` and `SummaryZeroLimit`. |
| Summary.GenerateSummary | news/utils/scraper.py:88-143 | The imperative summariser returns `Summarize(text, limit)`. |
| Summary.RankingIndexed | news/utils/scraper.py:106-133 | Entry `i` of the ranking carries sentence `i` and index `i`. |
| Summary.KeptSentences | news/utils/scraper.py:97-137 | With a positive limit, a text with sentences keeps `min(count, limit)` of them. Each kept one is one of its sentences. |
| Summary.SelectedSentences | news/utils/scraper.py:135-139 | With more sentences than the limit, exactly `limit` of the text's sentences are selected. |
| Summary.MembersAreSentences | news/utils/scraper.py:92 | Sentences taken from a list of sentences are sentences. |
| Summary.SummaryRoundTrip | news/utils/scraper.py:97-141 | With a positive limit and some sentences, the summary is the kept sentences joined by `". "` plus `"."`. Splitting the summary again gives back exactly those sentences. |
| Summary.SummaryIsJoin | news/utils/scraper.py:139-141 | The selected sentences never end in a period, so the closing `"."` is always appended. |
| Summary.SummaryFixedPoint | news/utils/scraper.py:88-143 | Summarising a summary again, with the same positive limit, returns it unchanged. |
| Summary.SummaryEndsWithPeriod | news/utils/scraper.py:97-141 | For any limit, a non-empty summary of a text with sentences ends with `.`. |
| Summary.SummaryZeroLimit | news/utils/scraper.py:136-141 | A zero limit gives the empty summary for a text with sentences. |
| Fallback.LongBlocks | news/utils/scraper.py:73-76 | At most one block is kept per element. |
| Fallback.LongBlocksAppend | news/utils/scraper.py:73-76 | The block filter keeps document order: blocks of a concatenation are the concatenation of the blocks. |
| Fallback.LongBlocksExact | news/utils/scraper.py:73-76 | Exactly the element texts longer than 40 characters are kept. |
| Fallback.LongBlocksLong | news/utils/scraper.py:75 | Every kept block is longer than 40 characters. |
| Fallback.CollectLongBlocks | news/utils/scraper.py:73-76 | The element loop appends exactly the long texts, in document order. |
| Fallback.WinnerFrom | news/utils/scraper.py:70-78 | The position of the first qualifying selector of a cascade from a given position on. `WinnerFromIsFirst` states that it is the first qualifying one, or that none qualifies. |
| Fallback.Winner | news/utils/scraper.py:56-78 | The winning selector of the fixed cascade of lines 56-68. `WinnerIsFirstQualifying` states both directions of the first-qualifying rule. |
| Fallback.WinnerFromIsFirst | news/utils/scraper.py:70-78 | The cascade's choice from any position is the first qualifying selector from there, or none. |
| Fallback.WinnerIsFirstQualifying | news/utils/scraper.py:70-78 | The winner is `w` if and only if selector `w` has at least 3 matches and a block longer than 40 characters, and no earlier selector does. There is no winner if and only if no selector qualifies. |
| Fallback.BlocksOfWinner | news/utils/scraper.py:70-78 | `content_blocks` are the long blocks of the winning selector: at least one, each longer than 40 characters. There are none without a winner. |
| Fallback.FallbackText | news/utils/scraper.py:40-86 | What `fetch_full_article_content_fallback` returns for a page. Its promises are stated by `FallbackTextSpec`, and `FetchFallbackContent` proves the imperative extractor computes it. |
| Fallback.FallbackTextSpec | news/utils/scraper.py:40-86 | A failed request or no winner gives `None`. Otherwise the text is at most the first 12 blocks of the winner, joined by blank lines. It is returned exactly when it is longer than 200 characters: a joined text of more than 200 characters is returned, and a shorter one gives `None`. |
| Fallback.CascadeBlocks | news/utils/scraper.py:70-78 | The selector loop with its early `break` leaves the long blocks of the first qualifying selector of the given cascade, or none when no selector qualifies. |
| Fallback.FetchFallbackContent | news/utils/scraper.py:55-82 | The imperative cascade with its early `break` returns `FallbackText(page)`. |
| Ingest.ChooseContent | news/utils/scraper.py:217-221 | The primary text, or the fallback text when the primary is short. `ChooseContentSpec` states when the fallback replaces it, in both directions. |
| Ingest.ChooseContentSpec | news/utils/scraper.py:217-221 | The fallback replaces the primary text exactly when the primary is shorter than 300 characters and the fallback is non-empty and strictly longer. The chosen text is never shorter than the primary. |
| Ingest.MakeArticle | news/utils/scraper.py:229-237 | The stored article's fields. `ProcessEntrySpec` states each of them: link, content, a title that is a prefix of the entry's title of at most 200 characters, the entry's author or `"Unknown"`, source, category, summary. |
| Ingest.ProcessEntry | news/utils/scraper.py:208-237 | The policy for one entry. `ProcessEntrySpec` states the skip conditions in both directions and the article's fields. |
| Ingest.ProcessEntrySpec | news/utils/scraper.py:209-237 | An entry becomes an article exactly when its link is not stored and its text has at least 100 characters. The article has the entry's link, that text, a title of at most 200 characters (a prefix of the title), the feed's name and category, the three-sentence summary, and the entry's author, or `Unknown` when it has none. |
| Ingest.IngestEntries | news/utils/scraper.py:207-247 | At most one article is created per entry. |
| Ingest.Considered | news/utils/scraper.py:207 | At most the first five entries of a feed are considered. |
| Ingest.IngestFeed | news/utils/scraper.py:200-247 | One feed: nothing without a category, otherwise its first five entries in order. `IngestEntriesUnique`, `IngestEntriesSettles` and `IngestEntriesFromEntries` state its promises. |
| Ingest.IngestFeeds | news/utils/scraper.py:196-247 | A whole run over the feeds in order, each seeing the articles stored before it. `IngestFeedsUnique`, `IngestFeedsCapped`, `IngestFeedsSettles` and `ReingestCreatesNothing` state its promises. |
| Ingest.IngestEntriesUnique | news/utils/scraper.py:207-247 | Ingesting a feed's entries keeps stored URLs pairwise different, and creates nothing whose URL was already stored. |
| Ingest.IngestFeedsUnique | news/utils/scraper.py:196-247 | A whole run keeps stored URLs pairwise different, even within the run, and never stores an already stored URL. |
| Ingest.AppendUnstored | news/utils/scraper.py:210-211 | Storing an article whose URL is not stored keeps URLs unique. |
| Ingest.StoredGrows | news/utils/scraper.py:210 | A stored URL stays stored as the store grows. |
| Ingest.SettledGrows | news/utils/scraper.py:210-211 | Entries that are stored or too short stay so as the store grows. |
| Ingest.SettledSnoc | news/utils/scraper.py:207-225 | One more settled entry keeps a list of entries settled. |
| Ingest.IngestEntriesSettles | news/utils/scraper.py:207-247 | After a feed's entries are ingested, each is stored or its text is under 100 characters. |
| Ingest.SettledCreatesNothing | news/utils/scraper.py:207-225 | Entries that are all stored or too short create nothing. |
| Ingest.FeedsSettledGrows | news/utils/scraper.py:200-225 | Settled feeds stay settled as the store grows. |
| Ingest.FeedsSettledSnoc | news/utils/scraper.py:200-225 | One more settled feed keeps a list of feeds settled. |
| Ingest.IngestFeedsSettles | news/utils/scraper.py:196-247 | After a run, every considered entry of every feed with a category is stored or too short. |
| Ingest.FeedsSettledCreateNothing | news/utils/scraper.py:196-247 | A store that settles all feeds makes a run create nothing. |
| Ingest.ReingestCreatesNothing | news/utils/scraper.py:196-256 | Running the ingester again on the same feeds and pages, at any time, creates no article. |
| Ingest.IngestEntriesFromEntries | news/utils/scraper.py:207-237 | Every created article is named after its feed, filed under its category, and has the link of one of the given entries. |
| Ingest.IngestFeedsCapped | news/utils/scraper.py:196-247 | A run creates at most five articles per feed. Each one comes from one of the first five entries of a feed whose category exists. |
| Ingest.ArticleStore.IngestEntry | news/utils/scraper.py:208-247 | The loop body stores exactly `ProcessEntry`'s article, if any, after the existing ones. |
| Ingest.ArticleStore.IngestFeedEntries | news/utils/scraper.py:200-247 | One feed's loop stores exactly `IngestFeed`'s articles, in order. |
| Ingest.ArticleStore.IngestFeedList | news/utils/scraper.py:200-253 | The feed loop stores exactly `IngestFeeds`' articles for the given configuration, feed after feed, and returns them. |
| Ingest.ArticleStore.FetchArticles | news/utils/scraper.py:196-256 | A run returns `IngestFeeds(old store, RSS_FEEDS)` and appends exactly those articles to the store. |
| Streak.Login | users/views.py:52-67 | After a login, the last login day is today. |
| Streak.LoginCases | users/views.py:58-64 | A login the day after the last one adds exactly 1, one on the same day keeps the count, and any other login resets it to 1. |
| Streak.SameDayIdempotent | users/views.py:58-67 | Two logins on the same day give the same state as one. |
| Streak.LoginKeepsValid | users/views.py:58-66 | A login leaves a streak of at least 1, grown by at most 1. |
| Streak.ConsecutiveDays | users/views.py:58-59 | Logins on `n` consecutive days after the last login extend the streak by exactly `n`. |
| Streak.LoginsSplit | users/views.py:52-67 | Logins on `n` consecutive days are a login on the first, then logins on the remaining `n - 1`. |
| Streak.FirstStreak | users/views.py:62-64 | From no login, `n` logins on consecutive days give a streak of `n`. |
| Streak.Profile.UpdateStreak | users/views.py:52-67 | The profile's streak and login day become `Login(old state, today)`, one implication per branch. Only `streak_count` and `last_login_date` are written. A profile with a valid streak (at least 1 once logged in) keeps one. |
| Text.Lower | news/utils/scraper.py:109 | `str.lower` keeps the length and lowercases each ASCII letter. |
| Text.Strip | news/utils/scraper.py:92 | `str.strip()`: the result is no longer than its input. `StripShape` states the rest. |
| Text.StripShape | news/utils/scraper.py:92 | `str.strip` returns a slice with no whitespace at either end, and only whitespace is cut off. |
| Text.SliceTo | news/utils/scraper.py:136 | A Python slice `s[:k]` is a prefix, with the length Python gives for non-negative and negative `k`. |
| Text.Join | news/utils/scraper.py:98 | `str.join` of no parts is empty, and of one part is that part. |

## Left out

- The HTTP requests, newspaper3k, feedparser and BeautifulSoup parsing and `select` are not modelled. Their results are inputs (`World`, `Page`), and a failed request is a missing page.
- The removal of script, style and navigation tags before selection is part of the page input.
- `clean_html` is the identity: its behaviour lives in the HTML parser.
- `\w`, `\s`, `\d` and `str.lower` are modelled on their ASCII members only: `\s` and `str.strip` cover space, `\t`, `\n`, `\r`, `\v`, `\f` and U+001C to U+001F. Non-ASCII whitespace, letters and digits of Python's Unicode classes are not modelled.
- Audio synthesis is not modelled: `generate_audio_summary`, gTTS, file saving, and setting `audio_file` on a stored article. It is a third-party service call plus file I/O.
- The Django ORM is not modelled. The store is a sequence of articles. `create_categories` becomes the fixed list of category keys it creates. Category objects and the many-to-many link are reduced to a category key per article.
- `users/models.py` is not part of this model. The defaults that `get_or_create` gives a new profile are the constructor's parameters.
- The `except Exception` recovery paths are not modelled: scraper.py lines 84-86, 144-146 and 249-251. They depend on unspecified library failures.
- `timezone.now()` is not modelled: it is a parameter (`now`, `today`). `time.sleep(1)` and logging are left out.
- Published times are integers. The conversion of `published_parsed` to a UTC datetime is not modelled.
- The two in-place `list.sort` calls are modelled on values, as a stable insertion sort. Sorting in place is not captured.
- The rest of `users/views.py`, and `users/forms.py` and `users/urls.py`, are request handling and configuration.
- Speech.CollapseRuns: states only the character classes of its result. What it keeps is stated through `Speech.CollapseKeepsVisible`.
- Text.Join: states only the empty and single-part cases. The general join is used through `Summary.SentencesOfJoin`.
