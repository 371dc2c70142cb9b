/**
 * `generate_summary`: the heuristic extractive summariser.
 *
 * The text is split into sentences at runs of `.`, `!` and `?`; sentences
 * of at most 25 characters are dropped.  When more sentences remain than
 * the limit, each is scored, the best `limit` are kept by a stable sort on
 * the score, and they are put back in their original order.
 */
module Summary {
  import opened Text

  predicate IsTerminator(c: char)
  {
    c == '.' || c == '!' || c == '?'
  }

  predicate IsSentenceChar(c: char)
  {
    !IsTerminator(c)
  }

  predicate NoTerminator(s: string)
  {
    forall i :: 0 <= i < |s| ==> !IsTerminator(s[i])
  }

  /** What the summariser keeps as a sentence. */
  predicate IsSentence(s: string)
  {
    |s| > 25 && NoTerminator(s) && !IsSpace(s[0]) && !IsSpace(s[|s| - 1])
  }

  /** The position of the first terminator of `s`, or `|s|` if there is none. */
  function FirstTerminator(s: string): (i: nat)
    ensures i <= |s|
    ensures i < |s| ==> IsTerminator(s[i])
    ensures forall j :: 0 <= j < i ==> !IsTerminator(s[j])
  {
    if s == [] || IsTerminator(s[0]) then 0 else 1 + FirstTerminator(s[1..])
  }

  /** Where the run of terminators starting at `i` ends: the match of `[.!?]+` is `s[i..RunEnd(s, i)]`. */
  function RunEnd(s: string, i: nat): (e: nat)
    requires i <= |s|
    ensures i <= e <= |s|
    ensures forall j :: i <= j < e ==> IsTerminator(s[j])
    ensures e == |s| || !IsTerminator(s[e])
    decreases |s| - i
  {
    if i < |s| && IsTerminator(s[i]) then RunEnd(s, i + 1) else i
  }

  /** `re.split(r'[.!?]+', s)`: the pieces between maximal runs of terminators. */
  function SplitOnTerminators(s: string): (r: seq<string>)
    ensures r != []
    ensures forall k :: 0 <= k < |r| ==> NoTerminator(r[k])
    decreases |s|
  {
    var i := FirstTerminator(s);
    if i == |s| then [s]
    else [s[..i]] + SplitOnTerminators(s[RunEnd(s, i)..])
  }

  function Concat(parts: seq<string>): string
  {
    if parts == [] then [] else parts[0] + Concat(parts[1..])
  }

  /** Filtering a text that is a terminator-free head, a run of terminators, then a tail. */
  lemma {:induction false} FilterAcrossRun(head: string, run: string, tail: string)
    requires NoTerminator(head)
    requires forall j :: 0 <= j < |run| ==> IsTerminator(run[j])
    ensures Filter(head + run + tail, IsSentenceChar) == head + Filter(tail, IsSentenceChar)
  {
    FilterAppend(head + run, tail, IsSentenceChar);
    FilterAppend(head, run, IsSentenceChar);
    FilterAll(head, IsSentenceChar);
    FilterNone(run, IsSentenceChar);
  }

  /** One step of the split: the first piece, then the text after the first run of terminators. */
  lemma {:induction false} SplitStep(s: string, i: nat, e: nat)
    requires i == FirstTerminator(s) < |s|
    requires e == RunEnd(s, i)
    ensures Filter(s, IsSentenceChar) == s[..i] + Filter(s[e..], IsSentenceChar)
  {
    var head, run := s[..i], s[i..e];
    assert NoTerminator(head) by {
      forall j | 0 <= j < i ensures !IsTerminator(head[j]) {
        assert head[j] == s[j];
      }
    }
    assert forall j :: 0 <= j < |run| ==> IsTerminator(run[j]) by {
      forall j | 0 <= j < |run| ensures IsTerminator(run[j]) {
        assert run[j] == s[i + j];
      }
    }
    SliceSplit(s, i, e);
    FilterAcrossRun(head, run, s[e..]);
  }

  /** Splitting loses exactly the terminators: the pieces put together are the text without them. */
  lemma {:induction false} SplitLosesOnlyTerminators(s: string)
    ensures Concat(SplitOnTerminators(s)) == Filter(s, IsSentenceChar)
    decreases |s|
  {
    var i := FirstTerminator(s);
    if i == |s| {
      FilterAll(s, IsSentenceChar);
      assert s + [] == s;
    } else {
      var e := RunEnd(s, i);
      SplitStep(s, i, e);
      SplitLosesOnlyTerminators(s[e..]);
      SplitAt(s, i, e);
    }
  }

  /** Stripping a piece without terminators leaves a piece without terminators. */
  lemma {:induction false} StripNoTerminator(f: string)
    requires NoTerminator(f)
    ensures NoTerminator(Strip(f))
  {
    var t := Strip(f);
    forall i | 0 <= i < |t| ensures !IsTerminator(t[i]) {
      StripCharAt(f, i);
    }
  }

  /** `[f.strip() for f in fragments if len(f.strip()) > 25]`. */
  function LongSentences(fragments: seq<string>): (r: seq<string>)
    ensures |r| <= |fragments|
  {
    if fragments == [] then []
    else
      var t := Strip(fragments[0]);
      if |t| > 25 then [t] + LongSentences(fragments[1..]) else LongSentences(fragments[1..])
  }

  /** Every kept piece of terminator-free fragments is a sentence. */
  lemma {:induction false} LongSentencesAreSentences(fragments: seq<string>)
    requires forall k :: 0 <= k < |fragments| ==> NoTerminator(fragments[k])
    ensures forall k :: 0 <= k < |LongSentences(fragments)| ==> IsSentence(LongSentences(fragments)[k])
  {
    if fragments != [] {
      StripNoTerminator(fragments[0]);
      StripShape(fragments[0]);
      LongSentencesAreSentences(fragments[1..]);
    }
  }

  /** A piece is kept exactly when its stripped form is longer than 25 characters. */
  lemma {:induction false} LongSentencesExact(fragments: seq<string>)
    requires forall k :: 0 <= k < |fragments| ==> NoTerminator(fragments[k])
    ensures forall f :: f in fragments && |Strip(f)| > 25 ==> Strip(f) in LongSentences(fragments)
    ensures forall t :: t in LongSentences(fragments) ==> exists f :: f in fragments && t == Strip(f)
  {
    if fragments != [] {
      var f0, tail := fragments[0], fragments[1..];
      LongSentencesExact(tail);
      var r, rt := LongSentences(fragments), LongSentences(tail);
      assert r == if |Strip(f0)| > 25 then [Strip(f0)] + rt else rt;
      forall f | f in fragments && |Strip(f)| > 25
        ensures Strip(f) in r
      {
        if f != f0 {
          assert f in tail;
        }
      }
      forall t | t in r
        ensures exists f :: f in fragments && t == Strip(f)
      {
        if t in rt {
          var f :| f in tail && t == Strip(f);
          assert f in fragments;
        } else {
          assert f0 in fragments && t == Strip(f0);
        }
      }
    }
  }

  /** The sentences of a text, in order. */
  function Sentences(text: string): seq<string>
  {
    LongSentences(SplitOnTerminators(text))
  }

  /** Each sentence is longer than 25 characters, stripped, and free of `.`, `!` and `?`. */
  lemma {:induction false} SentencesAreSentences(text: string)
    ensures forall k :: 0 <= k < |Sentences(text)| ==> IsSentence(Sentences(text)[k])
  {
    LongSentencesAreSentences(SplitOnTerminators(text));
  }

  /** A piece of the joined summary: the first sentence carries `pad`, the rest a single space. */
  function Pieces(pad: string, ss: seq<string>): seq<string>
    decreases ss
  {
    if ss == [] then [[]] else [pad + ss[0]] + Pieces(" ", ss[1..])
  }

  /** The first terminator of `a + b` is the first character of `b` when `a` has none. */
  lemma {:induction false} FirstTerminatorAt(a: string, b: string)
    requires NoTerminator(a) && b != [] && IsTerminator(b[0])
    ensures FirstTerminator(a + b) == |a|
  {
    assert forall j :: 0 <= j < |a| ==> (a + b)[j] == a[j];
    assert (a + b)[|a|] == b[0];
  }

  /** The last sentence of a joined summary: its piece, then the empty piece after the final `.`. */
  lemma {:induction false} SplitLastSentence(head: string)
    requires NoTerminator(head)
    ensures SplitOnTerminators(head + ".") == [head, []]
  {
    var text := head + ".";
    FirstTerminatorAt(head, ".");
    assert text[..|head|] == head;
    assert text[|head| + 1..] == [];
    SplitAt(text, |head|, |head| + 1);
    assert SplitOnTerminators([]) == [[]];
  }

  /** One unfolding of the split at its first terminator `i`, whose run ends at `e`. */
  lemma {:induction false} SplitAt(s: string, i: nat, e: nat)
    requires i == FirstTerminator(s) < |s|
    requires e == RunEnd(s, i)
    ensures SplitOnTerminators(s) == [s[..i]] + SplitOnTerminators(s[e..])
  {
  }

  /** A sentence followed by the `". "` separator splits off as one piece. */
  lemma {:induction false} SplitSeparatedSentence(head: string, tail: string)
    requires NoTerminator(head)
    ensures SplitOnTerminators(head + ". " + tail + ".") == [head] + SplitOnTerminators(" " + tail + ".")
  {
    var rest := " " + tail + ".";
    assert head + ". " + tail + "." == head + "." + rest;
    SplitBeforeText(head, rest);
  }

  /** A terminator-free head, one `.`, then a text that starts with no terminator. */
  lemma {:induction false} SplitBeforeText(head: string, rest: string)
    requires NoTerminator(head)
    requires rest != [] && !IsTerminator(rest[0])
    ensures SplitOnTerminators(head + "." + rest) == [head] + SplitOnTerminators(rest)
  {
    var text := head + "." + rest;
    assert text == head + ("." + rest);
    FirstTerminatorAt(head, "." + rest);
    assert text[..|head|] == head;
    assert text[|head| + 1] == rest[0];
    assert text[|head| + 1..] == rest;
    SplitAt(text, |head|, |head| + 1);
  }

  lemma {:induction false} PaddedNoTerminator(pad: string, t: string)
    requires pad == [] || pad == " "
    requires NoTerminator(t)
    ensures NoTerminator(pad + t)
  {
    forall j | 0 <= j < |pad + t| ensures !IsTerminator((pad + t)[j]) {
      if j >= |pad| {
        assert (pad + t)[j] == t[j - |pad|];
      }
    }
  }

  /** Splitting `" " + ". ".join(ss) + "."` gives back the sentences, each after its separator space. */
  lemma {:induction false} SplitJoinedPadded(ss: seq<string>)
    requires ss != [] && forall k :: 0 <= k < |ss| ==> NoTerminator(ss[k])
    ensures SplitOnTerminators(" " + Join(". ", ss) + ".") == Pieces(" ", ss)
    decreases ss
  {
    PaddedNoTerminator(" ", ss[0]);
    if |ss| == 1 {
      SplitLastSentence(" " + ss[0]);
    } else {
      var tail := Join(". ", ss[1..]);
      assert " " + Join(". ", ss) + "." == (" " + ss[0]) + ". " + tail + ".";
      SplitSeparatedSentence(" " + ss[0], tail);
      SplitJoinedPadded(ss[1..]);
    }
  }

  /** Splitting `". ".join(ss) + "."` gives back the sentences, all but the first after a space. */
  lemma {:induction false} SplitJoined(ss: seq<string>)
    requires ss != [] && forall k :: 0 <= k < |ss| ==> NoTerminator(ss[k])
    ensures SplitOnTerminators(Join(". ", ss) + ".") == Pieces([], ss)
  {
    assert [] + ss[0] == ss[0];
    if |ss| == 1 {
      SplitLastSentence(ss[0]);
    } else {
      var tail := Join(". ", ss[1..]);
      assert Join(". ", ss) + "." == ss[0] + ". " + tail + ".";
      SplitSeparatedSentence(ss[0], tail);
      SplitJoinedPadded(ss[1..]);
    }
  }

  /** A sentence preceded by spaces strips back to itself. */
  lemma {:induction false} StripPadded(pad: string, t: string)
    requires pad == [] || pad == " "
    requires IsSentence(t)
    ensures Strip(pad + t) == t
  {
    assert pad == [] ==> pad + t == t;
    assert pad != [] ==> (pad + t)[1..] == t;
    StripUnpadded(t);
  }

  lemma {:induction false} LongPiecesStep(pad: string, ss: seq<string>)
    requires pad == [] || pad == " "
    requires ss != [] && IsSentence(ss[0])
    ensures LongSentences(Pieces(pad, ss)) == [ss[0]] + LongSentences(Pieces(" ", ss[1..]))
  {
    var pieces := Pieces(pad, ss);
    StripPadded(pad, ss[0]);
    assert pieces[0] == pad + ss[0];
    assert pieces[1..] == Pieces(" ", ss[1..]);
  }

  /** Keeping the long pieces of a joined summary gives back its sentences. */
  lemma {:induction false} LongPieces(pad: string, ss: seq<string>)
    requires pad == [] || pad == " "
    requires forall k :: 0 <= k < |ss| ==> IsSentence(ss[k])
    ensures LongSentences(Pieces(pad, ss)) == ss
    decreases ss
  {
    if ss == [] {
      assert Pieces(pad, ss) == [[]];
      assert Strip([]) == [];
    } else {
      LongPiecesStep(pad, ss);
      LongPieces(" ", ss[1..]);
      assert [ss[0]] + ss[1..] == ss;
    }
  }

  /** Round trip: the sentences of `". ".join(ss) + "."` are `ss`. */
  lemma {:induction false} SentencesOfJoin(ss: seq<string>)
    requires ss != [] && forall k :: 0 <= k < |ss| ==> IsSentence(ss[k])
    ensures Sentences(Join(". ", ss) + ".") == ss
  {
    var text := Join(". ", ss) + ".";
    assert forall k :: 0 <= k < |ss| ==> NoTerminator(ss[k]);
    SplitJoined(ss);
    var pieces := Pieces([], ss);
    assert SplitOnTerminators(text) == pieces;
    LongPieces([], ss);
    assert Sentences(text) == LongSentences(pieces);
  }

  // ---------------------------------------------------------------- scoring

  /** The fixed importance vocabulary. */
  const Keywords: seq<string> := [
    "announced", "revealed", "confirmed", "reported", "said", "according",
    "new", "first", "major", "significant", "important", "breaking",
    "today", "yesterday", "will", "plans", "expected", "launched"
  ]

  lemma {:induction false} KeywordsDistinct()
    ensures forall a, b :: 0 <= a < b < |Keywords| ==> Keywords[a] != Keywords[b]
  {
  }

  /** The distinct keywords occurring as substrings of `lower`. */
  function MatchedKeywords(lower: string, kws: seq<string>): set<string>
  {
    set k | k in kws && Contains(lower, k)
  }

  function LengthBonus(n: nat): nat
  {
    if 60 <= n <= 150 then 3 else if 30 <= n <= 200 then 1 else 0
  }

  function PositionBonus(i: nat): nat
  {
    if i == 0 then 4 else if i < 3 then 3 else if i < 6 then 1 else 0
  }

  predicate HasQuote(s: string)
  {
    '"' in s || '\'' in s
  }

  /** The score of the sentence at index `i`. */
  function Score(sentence: string, i: nat): nat
  {
    2 * |MatchedKeywords(Lower(sentence), Keywords)|
      + LengthBonus(|sentence|)
      + PositionBonus(i)
      + (if HasDigit(sentence) then 1 else 0)
      + (if HasQuote(sentence) then 2 else 0)
  }

  /** Looking at one more keyword adds one match exactly when it occurs. */
  lemma {:induction false} MatchedKeywordsStep(lower: string, kws: seq<string>, k: nat)
    requires k < |kws|
    requires forall a, b :: 0 <= a < b < |kws| ==> kws[a] != kws[b]
    ensures |MatchedKeywords(lower, kws[..k + 1])|
      == |MatchedKeywords(lower, kws[..k])| + if Contains(lower, kws[k]) then 1 else 0
  {
    var before, after := MatchedKeywords(lower, kws[..k]), MatchedKeywords(lower, kws[..k + 1]);
    assert kws[..k + 1] == kws[..k] + [kws[k]];
    assert kws[k] !in kws[..k];
    if Contains(lower, kws[k]) {
      assert after == before + {kws[k]};
    } else {
      assert after == before;
    }
  }

  /** The keyword loop: two points for each keyword of the (duplicate-free) list that occurs in `lower`. */
  method KeywordPoints(lower: string, kws: seq<string>) returns (points: nat)
    requires forall a, b :: 0 <= a < b < |kws| ==> kws[a] != kws[b]
    ensures points == 2 * |MatchedKeywords(lower, kws)|
  {
    points := 0;
    var k := 0;
    while k < |kws|
      invariant 0 <= k <= |kws|
      invariant points == 2 * |MatchedKeywords(lower, kws[..k])|
    {
      MatchedKeywordsStep(lower, kws, k);
      if Contains(lower, kws[k]) {
        points := points + 2;
      }
      k := k + 1;
    }
    assert kws[..k] == kws;
  }

  /** The scoring loop for one sentence: two points per keyword that occurs, then the bonuses. */
  method ScoreSentence(sentence: string, i: nat) returns (score: nat)
    ensures score == Score(sentence, i)
  {
    KeywordsDistinct();
    score := KeywordPoints(Lower(sentence), Keywords);
    if 60 <= |sentence| <= 150 {
      score := score + 3;
    } else if 30 <= |sentence| <= 200 {
      score := score + 1;
    }
    if i == 0 {
      score := score + 4;
    } else if i < 3 {
      score := score + 3;
    } else if i < 6 {
      score := score + 1;
    }
    if HasDigit(sentence) {
      score := score + 1;
    }
    if '"' in sentence || '\'' in sentence {
      score := score + 2;
    }
  }

  // -------------------------------------------------------------- selection

  /** An entry of `scored_sentences`: the sentence, its score and its original index. */
  datatype Ranked = Ranked(sentence: string, score: int, index: nat)

  function Ranking(sentences: seq<string>): (r: seq<Ranked>)
    ensures |r| == |sentences|
  {
    seq(|sentences|, i requires 0 <= i < |sentences| => Ranked(sentences[i], Score(sentences[i], i), i))
  }

  function SentencesOf(ranked: seq<Ranked>): (r: seq<string>)
    ensures |r| == |ranked|
  {
    seq(|ranked|, i requires 0 <= i < |ranked| => ranked[i].sentence)
  }

  /**
   * The two sort keys: `sort(key=lambda x: x[1], reverse=True)` is a stable
   * ascending sort on the negated score, `sort(key=lambda x: x[2])` one on
   * the original index.
   */
  datatype SortKey = ByScoreDescending | ByPosition

  function KeyOf(key: SortKey, e: Ranked): int
  {
    match key
    case ByScoreDescending => -e.score
    case ByPosition => e.index
  }

  /** Inserts `x` after every element whose key is not larger: later elements go after equal ones. */
  function InsertStable(x: Ranked, s: seq<Ranked>, key: SortKey): (r: seq<Ranked>)
    ensures |r| == |s| + 1
    ensures multiset(r) == multiset(s) + multiset{x}
  {
    if s == [] then [x]
    else if KeyOf(key, s[0]) <= KeyOf(key, x) then
      assert s == [s[0]] + s[1..];
      [s[0]] + InsertStable(x, s[1..], key)
    else [x] + s
  }

  /** Python's stable `list.sort` by `key`, as an insertion sort. */
  function StableSort(s: seq<Ranked>, key: SortKey): (r: seq<Ranked>)
    ensures |r| == |s|
    ensures multiset(r) == multiset(s)
  {
    if s == [] then []
    else
      assert s == s[..|s| - 1] + [s[|s| - 1]];
      InsertStable(s[|s| - 1], StableSort(s[..|s| - 1], key), key)
  }

  /** `x` comes before `y`: a smaller key, or an equal key and a smaller original index. */
  predicate Precedes(x: Ranked, y: Ranked, key: SortKey)
  {
    KeyOf(key, x) < KeyOf(key, y) || (KeyOf(key, x) == KeyOf(key, y) && x.index < y.index)
  }

  predicate Ordered(s: seq<Ranked>, key: SortKey)
  {
    forall i, j :: 0 <= i < j < |s| ==> Precedes(s[i], s[j], key)
  }

  /** Elements with equal keys appear in the order of their original index. */
  predicate TiesInIndexOrder(s: seq<Ranked>, key: SortKey)
  {
    forall i, j :: 0 <= i < j < |s| && KeyOf(key, s[i]) == KeyOf(key, s[j]) ==> s[i].index < s[j].index
  }

  lemma {:induction false} InsertOrdered(x: Ranked, s: seq<Ranked>, key: SortKey)
    requires Ordered(s, key)
    requires forall y :: y in s && KeyOf(key, y) == KeyOf(key, x) ==> y.index < x.index
    ensures Ordered(InsertStable(x, s, key), key)
  {
    if s != [] {
      var r := InsertStable(x, s, key);
      if KeyOf(key, s[0]) <= KeyOf(key, x) {
        var rest := InsertStable(x, s[1..], key);
        InsertOrdered(x, s[1..], key);
        forall j | 0 <= j < |rest| ensures Precedes(s[0], rest[j], key) {
          assert rest[j] in multiset(rest);
          if rest[j] != x {
            assert rest[j] in s[1..];
            var m :| 0 <= m < |s[1..]| && s[1..][m] == rest[j];
            assert s[1 + m] == rest[j];
          }
        }
        assert r == [s[0]] + rest;
      } else {
        forall j | 0 <= j < |s| ensures Precedes(x, s[j], key) {
          if j > 0 {
            assert Precedes(s[0], s[j], key);
          }
        }
      }
    }
  }

  /** The stable sort orders by key, with ties in original-index order. */
  lemma {:induction false} StableSortOrdered(s: seq<Ranked>, key: SortKey)
    requires TiesInIndexOrder(s, key)
    ensures Ordered(StableSort(s, key), key)
  {
    if s != [] {
      var n := |s| - 1;
      var prefix := StableSort(s[..n], key);
      StableSortOrdered(s[..n], key);
      forall y | y in prefix && KeyOf(key, y) == KeyOf(key, s[n])
        ensures y.index < s[n].index
      {
        assert y in multiset(s[..n]);
        var m :| 0 <= m < n && s[..n][m] == y;
        assert s[m] == y;
      }
      InsertOrdered(s[n], prefix, key);
    }
  }

  /** Entry `i` of a ranking has original index `i`. */
  predicate Indexed(ranked: seq<Ranked>)
  {
    forall i :: 0 <= i < |ranked| ==> ranked[i].index == i
  }

  /**
   * `top_sentences`: sort by score (descending, stable), keep the first
   * `limit` (a Python slice), sort those by original index.
   */
  function SelectTop(ranked: seq<Ranked>, limit: int): seq<Ranked>
  {
    StableSort(SliceTo(StableSort(ranked, ByScoreDescending), limit), ByPosition)
  }

  /**
   * What the selection promises: exactly `limit` entries, all taken from
   * the ranking, in increasing original index; each selected entry scores
   * at least as much as each unselected one, and on equal scores the lower
   * index is the one selected.
   */
  lemma {:induction false} SelectTopSpec(ranked: seq<Ranked>, limit: int)
    requires Indexed(ranked)
    ensures var top := SelectTop(ranked, limit);
      && (0 <= limit <= |ranked| ==> |top| == limit)
      && (forall k :: 0 <= k < |top| ==> top[k].index < |ranked| && top[k] == ranked[top[k].index])
      && (forall i, j :: 0 <= i < j < |top| ==> top[i].index < top[j].index)
      && (forall x, y :: x in top && y in ranked && y !in top ==>
            x.score > y.score || (x.score == y.score && x.index < y.index))
  {
    var byScore := StableSort(ranked, ByScoreDescending);
    var kept := SliceTo(byScore, limit);
    var top := StableSort(kept, ByPosition);
    SameElements(top, kept);
    SelectedFromRanking(ranked, limit);
    SelectedIndicesDistinct(ranked, limit);
    StableSortOrdered(kept, ByPosition);
    SelectedDominate(ranked, limit);
  }

  /** Two sequences with the same multiset have the same elements. */
  lemma {:induction false} SameElements(a: seq<Ranked>, b: seq<Ranked>)
    requires multiset(a) == multiset(b)
    ensures forall x :: x in a <==> x in b
  {
    forall x ensures x in a <==> x in b {
      assert x in a <==> x in multiset(a);
      assert x in b <==> x in multiset(b);
    }
  }

  /** Every entry kept after the score sort is the ranking's entry at its own index. */
  lemma {:induction false} SelectedFromRanking(ranked: seq<Ranked>, limit: int)
    requires Indexed(ranked)
    ensures var kept := SliceTo(StableSort(ranked, ByScoreDescending), limit);
      forall x :: x in kept ==> x.index < |ranked| && x == ranked[x.index]
  {
    var byScore := StableSort(ranked, ByScoreDescending);
    var kept := SliceTo(byScore, limit);
    SameElements(byScore, ranked);
    forall x | x in kept ensures x.index < |ranked| && x == ranked[x.index] {
      assert x in byScore;
    }
  }

  /** The kept entries have pairwise different original indices. */
  lemma {:induction false} SelectedIndicesDistinct(ranked: seq<Ranked>, limit: int)
    requires Indexed(ranked)
    ensures TiesInIndexOrder(SliceTo(StableSort(ranked, ByScoreDescending), limit), ByPosition)
  {
    var byScore := StableSort(ranked, ByScoreDescending);
    var kept := SliceTo(byScore, limit);
    StableSortOrdered(ranked, ByScoreDescending);
    SelectedFromRanking(ranked, limit);
    forall i, j | 0 <= i < j < |kept|
      ensures kept[i].index != kept[j].index
    {
      assert kept[i] in kept && kept[j] in kept;
      assert kept[i] == byScore[i] && kept[j] == byScore[j];
      assert Precedes(kept[i], kept[j], ByScoreDescending);
      assert kept[i] == ranked[kept[i].index] && kept[j] == ranked[kept[j].index];
    }
  }

  /** A kept entry outscores every entry left out, or ties with it at a lower index. */
  lemma {:induction false} SelectedDominate(ranked: seq<Ranked>, limit: int)
    requires Indexed(ranked)
    ensures var kept := SliceTo(StableSort(ranked, ByScoreDescending), limit);
      forall x, y :: x in kept && y in ranked && y !in kept ==>
        x.score > y.score || (x.score == y.score && x.index < y.index)
  {
    var byScore := StableSort(ranked, ByScoreDescending);
    var kept := SliceTo(byScore, limit);
    StableSortOrdered(ranked, ByScoreDescending);
    SameElements(byScore, ranked);
    assert kept == byScore[..|kept|];
    forall x, y | x in kept && y in ranked && y !in kept
      ensures x.score > y.score || (x.score == y.score && x.index < y.index)
    {
      PrefixDominates(byScore, |kept|, x, y);
    }
  }

  /** In a score-ordered sequence, an entry of a prefix precedes every entry after the prefix. */
  lemma {:induction false} PrefixDominates(s: seq<Ranked>, n: nat, x: Ranked, y: Ranked)
    requires Ordered(s, ByScoreDescending) && n <= |s|
    requires x in s[..n] && y in s && y !in s[..n]
    ensures x.score > y.score || (x.score == y.score && x.index < y.index)
  {
    var i :| 0 <= i < n && s[..n][i] == x;
    var j :| 0 <= j < |s| && s[j] == y;
    assert forall m :: 0 <= m < n ==> s[m] in s[..n];
    assert s[i] == x;
    assert Precedes(s[i], s[j], ByScoreDescending);
  }

  // --------------------------------------------------------------- summary

  /** `generate_summary(text, sentence_limit)` as a value. */
  function Summarize(text: string, limit: int): string
  {
    var cleaned := CleanHtml(text);
    var sentences := Sentences(cleaned);
    if sentences == [] then
      if |cleaned| > 300 then cleaned[..300] + "..." else cleaned
    else if |sentences| <= limit then
      Join(". ", sentences) + "."
    else
      var joined := Join(". ", SentencesOf(SelectTop(Ranking(sentences), limit)));
      if joined != [] && joined[|joined| - 1] != '.' then joined + "." else joined
  }

  /** The scoring pass: one `(sentence, score, index)` entry per sentence, in order. */
  method ScoreAll(sentences: seq<string>) returns (scored: seq<Ranked>)
    ensures scored == Ranking(sentences)
  {
    scored := [];
    var i := 0;
    while i < |sentences|
      invariant 0 <= i <= |sentences|
      invariant scored == Ranking(sentences)[..i]
    {
      var score := ScoreSentence(sentences[i], i);
      scored := scored + [Ranked(sentences[i], score, i)];
      i := i + 1;
    }
  }

  /**
   * The summariser as the source runs it: one scoring pass that appends
   * `(sentence, score, index)` entries, then the two sorts.
   */
  method GenerateSummary(text: string, sentenceLimit: int) returns (summary: string)
    ensures summary == Summarize(text, sentenceLimit)
  {
    var cleaned := CleanHtml(text);
    var sentences := Sentences(cleaned);
    if sentences == [] {
      summary := if |cleaned| > 300 then cleaned[..300] + "..." else cleaned;
      return;
    }
    if |sentences| <= sentenceLimit {
      summary := Join(". ", sentences) + ".";
      return;
    }
    var scored := ScoreAll(sentences);
    scored := StableSort(scored, ByScoreDescending);
    var top := SliceTo(scored, sentenceLimit);
    top := StableSort(top, ByPosition);
    assert top == SelectTop(Ranking(sentences), sentenceLimit);
    var joined := Join(". ", SentencesOf(top));
    summary := if joined != [] && joined[|joined| - 1] != '.' then joined + "." else joined;
  }

  /** The sentences a summary keeps: all of them when they fit, the selected ones otherwise. */
  function Kept(text: string, limit: int): seq<string>
  {
    var sentences := Sentences(CleanHtml(text));
    if |sentences| <= limit then sentences else SentencesOf(SelectTop(Ranking(sentences), limit))
  }

  /** A ranking is indexed, and its entries carry the sentences in order. */
  lemma {:induction false} RankingIndexed(sentences: seq<string>)
    ensures Indexed(Ranking(sentences))
    ensures forall i :: 0 <= i < |sentences| ==> Ranking(sentences)[i].sentence == sentences[i]
  {
  }

  /**
   * With a positive limit, a text that has sentences keeps between one and
   * `limit` of them, each one of the text's sentences.  (Their order is
   * stated by `SelectTopSpec`.)
   */
  lemma {:induction false} KeptSentences(text: string, limit: int)
    requires Sentences(CleanHtml(text)) != [] && limit >= 1
    ensures var sentences, kept := Sentences(CleanHtml(text)), Kept(text, limit);
      && |kept| == (if |sentences| <= limit then |sentences| else limit)
      && (forall k :: 0 <= k < |kept| ==> IsSentence(kept[k]))
      && (forall k :: 0 <= k < |kept| ==> kept[k] in sentences)
  {
    var sentences := Sentences(CleanHtml(text));
    var kept := Kept(text, limit);
    if limit < |sentences| {
      SelectedSentences(sentences, limit);
    }
    SentencesAreSentences(CleanHtml(text));
    MembersAreSentences(kept, sentences);
  }

  lemma {:induction false} MembersAreSentences(kept: seq<string>, sentences: seq<string>)
    requires forall k :: 0 <= k < |kept| ==> kept[k] in sentences
    requires forall j :: 0 <= j < |sentences| ==> IsSentence(sentences[j])
    ensures forall k :: 0 <= k < |kept| ==> IsSentence(kept[k])
  {
    forall k | 0 <= k < |kept| ensures IsSentence(kept[k]) {
      var j :| 0 <= j < |sentences| && sentences[j] == kept[k];
    }
  }

  /** The selected sentences are `limit` of the given ones. */
  lemma {:induction false} SelectedSentences(sentences: seq<string>, limit: int)
    requires 1 <= limit < |sentences|
    ensures var kept := SentencesOf(SelectTop(Ranking(sentences), limit));
      && |kept| == limit
      && forall k :: 0 <= k < |kept| ==> kept[k] in sentences
  {
    var ranked := Ranking(sentences);
    RankingIndexed(sentences);
    SelectTopSpec(ranked, limit);
    var top := SelectTop(ranked, limit);
    forall k | 0 <= k < |top| ensures top[k].sentence in sentences {
      assert top[k].sentence == sentences[top[k].index];
    }
  }

  /**
   * With a positive limit, the summary of a text that has sentences is its
   * kept sentences joined by `". "` and closed by a period; splitting it
   * again gives back exactly those sentences.
   */
  lemma {:induction false} SummaryRoundTrip(text: string, limit: int)
    requires Sentences(CleanHtml(text)) != [] && limit >= 1
    ensures Summarize(text, limit) == Join(". ", Kept(text, limit)) + "."
    ensures Sentences(Summarize(text, limit)) == Kept(text, limit)
  {
    var kept := Kept(text, limit);
    KeptSentences(text, limit);
    SummaryIsJoin(text, limit);
    SentencesOfJoin(kept);
  }

  lemma {:induction false} SummaryIsJoin(text: string, limit: int)
    requires Sentences(CleanHtml(text)) != [] && limit >= 1
    ensures Summarize(text, limit) == Join(". ", Kept(text, limit)) + "."
  {
    var sentences := Sentences(CleanHtml(text));
    if limit < |sentences| {
      var kept := Kept(text, limit);
      KeptSentences(text, limit);
      var joined := Join(". ", kept);
      assert IsSentence(kept[|kept| - 1]);
      JoinEndsWithLastPart(". ", kept);
      assert joined != [] && joined[|joined| - 1] != '.';
    }
  }

  /** Summarising a summary (positive limit, some sentences) changes nothing. */
  lemma {:induction false} SummaryFixedPoint(text: string, limit: int)
    requires Sentences(CleanHtml(text)) != [] && limit >= 1
    ensures Summarize(Summarize(text, limit), limit) == Summarize(text, limit)
  {
    var summary := Summarize(text, limit);
    SummaryRoundTrip(text, limit);
    KeptSentences(text, limit);
    assert Sentences(CleanHtml(summary)) == Kept(text, limit);
  }

  /** A text without sentences is returned as it is, or cut to 300 characters followed by `...`. */
  lemma {:induction false} SummaryWithoutSentences(text: string, limit: int)
    requires Sentences(CleanHtml(text)) == []
    ensures var r := Summarize(text, limit);
      && (|text| <= 300 ==> r == text)
      && (|text| > 300 ==> |r| == 303 && r[..300] == text[..300] && r[300..] == "...")
  {
  }

  /** Whatever the limit, a non-empty summary of a text that has sentences ends with a period. */
  lemma {:induction false} SummaryEndsWithPeriod(text: string, limit: int)
    requires Sentences(CleanHtml(text)) != []
    ensures var r := Summarize(text, limit); r != [] ==> r[|r| - 1] == '.'
  {
    var sentences := Sentences(CleanHtml(text));
    if |sentences| <= limit {
      var joined := Join(". ", sentences);
      assert Summarize(text, limit) == joined + ".";
    } else {
      var joined := Join(". ", SentencesOf(SelectTop(Ranking(sentences), limit)));
      assert Summarize(text, limit) == if joined != [] && joined[|joined| - 1] != '.' then joined + "." else joined;
    }
  }

  /** A zero limit keeps nothing of a text that has sentences: the summary is empty. */
  lemma {:induction false} SummaryZeroLimit(text: string)
    requires Sentences(CleanHtml(text)) != []
    ensures Summarize(text, 0) == []
  {
  }
}
