/**
 * `clean_text_for_speech`: normalises summary text before it is handed to
 * the text-to-speech service.  Four regular-expression substitutions are
 * applied in turn:
 *   1. every run of `\r`/`\n` becomes one space;
 *   2. every run of whitespace becomes one space;
 *   3. every character that is not `\w`, whitespace or one of `,.!?'"` is deleted;
 *   4. leading and trailing whitespace is stripped.
 */
module Speech {
  import opened Text
  import opened Wrappers

  predicate IsLineBreak(c: char)
  {
    c == '\r' || c == '\n'
  }

  predicate IsSpeechPunctuation(c: char)
  {
    c == ',' || c == '.' || c == '!' || c == '?' || c == '\'' || c == '"'
  }

  /** The characters the deletion step keeps: `[\w\s,.!?'"]`. */
  predicate Allowed(c: char)
  {
    IsWordChar(c) || IsSpace(c) || IsSpeechPunctuation(c)
  }

  /** Characters that carry the text itself: allowed and not whitespace. */
  predicate Visible(c: char)
  {
    Allowed(c) && !IsSpace(c)
  }

  /** `re.sub(P + '+', ' ', s)` for a character class `p`: each maximal run of `p` becomes one space. */
  function CollapseRuns(s: string, p: char -> bool): (r: string)
    ensures forall i :: 0 <= i < |r| ==> r[i] == ' ' || !p(r[i])
    decreases |s|
  {
    if s == [] then []
    else if p(s[0]) then
      var rest := DropWhile(s[1..], p);
      [' '] + CollapseRuns(rest, p)
    else
      [s[0]] + CollapseRuns(s[1..], p)
  }

  /** What may be left after cleaning: word characters, the plain space and `,.!?'"`. */
  predicate SpeechChar(c: char)
  {
    IsWordChar(c) || c == ' ' || IsSpeechPunctuation(c)
  }

  /** `clean_text_for_speech(text)`; `None` stands for Python's `None`. */
  function CleanForSpeech(text: Option<string>): (r: string)
    ensures text == None || text == Some([]) ==> r == []
    ensures forall i :: 0 <= i < |r| ==> SpeechChar(r[i])
    ensures forall i :: 0 <= i < |r| && IsSpace(r[i]) ==> r[i] == ' '
    ensures r == [] || (r[0] != ' ' && r[|r| - 1] != ' ')
  {
    if text == None || text.value == [] then []
    else
      var oneLine := CollapseRuns(text.value, IsLineBreak);
      var spaced := CollapseRuns(oneLine, IsSpace);
      var kept := Filter(spaced, Allowed);
      KeptAreSpeechChars(spaced);
      StrippedSpeech(kept);
      Strip(kept)
  }

  /** After whitespace runs are collapsed and disallowed characters deleted, only speech characters remain. */
  lemma {:induction false} KeptAreSpeechChars(spaced: string)
    requires forall i :: 0 <= i < |spaced| ==> spaced[i] == ' ' || !IsSpace(spaced[i])
    ensures forall i :: 0 <= i < |Filter(spaced, Allowed)| ==> SpeechChar(Filter(spaced, Allowed)[i])
  {
    if spaced != [] {
      KeptAreSpeechChars(spaced[1..]);
    }
  }

  /** Stripping speech characters leaves speech characters, with no space at either end. */
  lemma {:induction false} StrippedSpeech(s: string)
    requires forall i :: 0 <= i < |s| ==> SpeechChar(s[i])
    ensures var r := Strip(s);
      && (forall i :: 0 <= i < |r| ==> SpeechChar(r[i]))
      && (forall i :: 0 <= i < |r| && IsSpace(r[i]) ==> r[i] == ' ')
      && (r == [] || (r[0] != ' ' && r[|r| - 1] != ' '))
  {
    var r := Strip(s);
    forall i | 0 <= i < |r|
      ensures SpeechChar(r[i]) && (IsSpace(r[i]) ==> r[i] == ' ')
    {
      StripCharAt(s, i);
      SpeechCharSpace(r[i]);
    }
    StripShape(s);
  }

  /** The plain space is the only whitespace among the speech characters. */
  lemma {:induction false} SpeechCharSpace(c: char)
    requires SpeechChar(c)
    ensures IsSpace(c) ==> c == ' '
  {
  }

  /** Collapsing whitespace runs neither adds nor removes a visible character. */
  lemma {:induction false} CollapseKeepsVisible(s: string, p: char -> bool)
    requires forall c :: p(c) ==> IsSpace(c)
    ensures Filter(CollapseRuns(s, p), Visible) == Filter(s, Visible)
    decreases |s|
  {
    if s == [] {
    } else if p(s[0]) {
      var rest := DropWhile(s[1..], p);
      DropLeadingKeepsVisible(s[1..], p);
      assert Filter(s, Visible) == Filter(s[1..], Visible);
      FilterAppend([' '], CollapseRuns(rest, p), Visible);
      CollapseKeepsVisible(rest, p);
    } else {
      FilterAppend([s[0]], CollapseRuns(s[1..], p), Visible);
      FilterAppend([s[0]], s[1..], Visible);
      assert s == [s[0]] + s[1..];
      CollapseKeepsVisible(s[1..], p);
    }
  }

  /** Deleting disallowed characters never deletes a visible one. */
  lemma {:induction false} DeletionKeepsVisible(s: string)
    ensures Filter(Filter(s, Allowed), Visible) == Filter(s, Visible)
  {
    if s != [] {
      DeletionKeepsVisible(s[1..]);
    }
  }

  /** Stripping removes only whitespace. */
  lemma {:induction false} StripKeepsVisible(s: string)
    ensures Filter(Strip(s), Visible) == Filter(s, Visible)
  {
    DropLeadingKeepsVisible(s, IsSpace);
    DropTrailingKeepsVisible(DropWhile(s, IsSpace));
  }

  /** Dropping a leading run of whitespace characters removes no visible character. */
  lemma {:induction false} DropLeadingKeepsVisible(s: string, p: char -> bool)
    requires forall c :: p(c) ==> IsSpace(c)
    ensures Filter(DropWhile(s, p), Visible) == Filter(s, Visible)
  {
    if s != [] && p(s[0]) {
      DropLeadingKeepsVisible(s[1..], p);
    }
  }

  lemma {:induction false} DropTrailingKeepsVisible(s: string)
    ensures Filter(DropWhileEnd(s, IsSpace), Visible) == Filter(s, Visible)
  {
    if s != [] && IsSpace(s[|s| - 1]) {
      var init := s[..|s| - 1];
      DropTrailingKeepsVisible(init);
      assert s == init + [s[|s| - 1]];
      FilterAppend(init, [s[|s| - 1]], Visible);
      assert Filter([s[|s| - 1]], Visible) == [];
    }
  }

  /**
   * Cleaning keeps every visible character of the input, in order, and
   * introduces none: only whitespace and disallowed characters change.
   */
  lemma {:induction false} CleanKeepsVisibleText(t: string)
    ensures Filter(CleanForSpeech(Some(t)), Visible) == Filter(t, Visible)
  {
    if t != [] {
      var oneLine := CollapseRuns(t, IsLineBreak);
      var spaced := CollapseRuns(oneLine, IsSpace);
      CollapseKeepsVisible(t, IsLineBreak);
      CollapseKeepsVisible(oneLine, IsSpace);
      DeletionKeepsVisible(spaced);
      StripKeepsVisible(Filter(spaced, Allowed));
    }
  }

  /** A string with no character of the class is left as it is. */
  lemma {:induction false} CollapseWithoutRuns(s: string, p: char -> bool)
    requires forall i :: 0 <= i < |s| ==> !p(s[i])
    ensures CollapseRuns(s, p) == s
  {
    if s != [] {
      CollapseWithoutRuns(s[1..], p);
    }
  }

  /** A string whose class characters are isolated spaces is left as it is. */
  lemma {:induction false} CollapseIsolatedSpaces(s: string, p: char -> bool)
    requires forall i :: 0 <= i < |s| && p(s[i]) ==> s[i] == ' '
    requires forall i :: 0 <= i < |s| - 1 ==> !(p(s[i]) && p(s[i + 1]))
    ensures CollapseRuns(s, p) == s
  {
    if s != [] {
      if p(s[0]) {
        assert |s| > 1 ==> !p(s[1..][0]);
        assert DropWhile(s[1..], p) == s[1..];
      }
      CollapseIsolatedSpaces(s[1..], p);
    }
  }

  /**
   * Text in the form cleaning aims at: speech characters only, no space at
   * either end and no two spaces in a row.
   */
  predicate SpeechReady(s: string)
  {
    && (forall i :: 0 <= i < |s| ==> SpeechChar(s[i]))
    && (forall i :: 0 <= i < |s| - 1 ==> !(s[i] == ' ' && s[i + 1] == ' '))
    && (s == [] || (s[0] != ' ' && s[|s| - 1] != ' '))
  }

  /** Cleaning leaves speech-ready text exactly as it is. */
  lemma {:induction false} CleanKeepsSpeechReady(t: string)
    requires SpeechReady(t)
    ensures CleanForSpeech(Some(t)) == t
  {
    if t != [] {
      forall i | 0 <= i < |t| ensures !IsLineBreak(t[i]) && (IsSpace(t[i]) ==> t[i] == ' ') {
        SpeechCharSpace(t[i]);
      }
      CollapseWithoutRuns(t, IsLineBreak);
      CollapseIsolatedSpaces(t, IsSpace);
      FilterAll(t, Allowed);
      StripUnpadded(t);
    }
  }

  /**
   * Cleaning is not idempotent: deleting a character between two spaces
   * leaves a double space that only a second pass collapses.
   */
  lemma {:induction false} CleanNotIdempotent()
    ensures CleanForSpeech(Some("a - b")) == "a  b"
    ensures CleanForSpeech(Some("a  b")) == "a b"
  {
    CleanDash();
    CleanDoubleSpace();
  }

  lemma {:induction false} CleanDash()
    ensures CleanForSpeech(Some("a - b")) == "a  b"
  {
    calc {
      CleanForSpeech(Some("a - b"));
      Strip(Filter(CollapseRuns(CollapseRuns("a - b", IsLineBreak), IsSpace), Allowed));
      { DashUnchangedByCollapsing(); }
      Strip(Filter("a - b", Allowed));
      { DeleteDash(); }
      Strip("a  b");
      { StripUnpadded("a  b"); }
      "a  b";
    }
  }

  lemma {:induction false} DashUnchangedByCollapsing()
    ensures CollapseRuns("a - b", IsLineBreak) == "a - b"
    ensures CollapseRuns("a - b", IsSpace) == "a - b"
  {
    var s := "a - b";
    assert s[0] == 'a' && s[1] == ' ' && s[2] == '-' && s[3] == ' ' && s[4] == 'b';
    CollapseWithoutRuns(s, IsLineBreak);
    CollapseIsolatedSpaces(s, IsSpace);
  }

  lemma {:induction false} CleanDoubleSpace()
    ensures CleanForSpeech(Some("a  b")) == "a b"
  {
    CollapseWithoutRuns("a  b", IsLineBreak);
    CollapseDoubleSpace();
    FilterAll("a b", Allowed);
    StripUnpadded("a b");
  }

  lemma {:induction false} DeleteDash()
    ensures Filter("a - b", Allowed) == "a  b"
  {
    assert Allowed('a') && Allowed(' ') && !Allowed('-') && Allowed('b');
    assert "a - b"[1..] == " - b" && " - b"[1..] == "- b" && "- b"[1..] == " b";
    assert " b"[1..] == "b" && "b"[1..] == [];
    calc {
      Filter("a - b", Allowed);
      "a" + Filter(" - b", Allowed);
      "a " + Filter("- b", Allowed);
      "a " + Filter(" b", Allowed);
      "a " + (" " + Filter("b", Allowed));
      "a " + (" " + ("b" + Filter([], Allowed)));
      "a  b";
    }
  }

  lemma {:induction false} CollapseDoubleSpace()
    ensures CollapseRuns("a  b", IsSpace) == "a b"
  {
    assert "a  b"[1..] == "  b";
    assert "  b"[1..] == " b";
    CollapseWithoutRuns("b", IsSpace);
  }
}
