/**
 * The sanitisers of the converter: emoji replacement, trailing-comma stripping, comma
 * removal, the "NA" sentinel for empty text, and `sanitize_value`, which chains them.
 */
module Sanitizers {
  import opened Wrappers
  import opened Text
  import opened Emoji

  /** The sentinel written for a missing or unusable value. */
  const Sentinel: string := "NA"

  /** No character of `s` is emoji-like. */
  predicate NoEmoji(s: string, otherSymbol: OtherSymbolTest) {
    forall c :: c in s ==> !IsEmojiLike(c, otherSymbol)
  }

  /**
   * The shape of every value `sanitize_value` returns: not empty, no comma, no emoji-like
   * character, no whitespace at either end, and no whitespace but single plain spaces.
   */
  ghost predicate Clean(s: string, otherSymbol: OtherSymbolTest) {
    && s != []
    && ',' !in s
    && NoEmoji(s, otherSymbol)
    && NoEdgeSpace(s)
    && Collapsed(s)
  }

  predicate IsCommaOrSpace(c: char) {
    c == ',' || IsSpace(c)
  }

  /** The case-insensitive test `s.lower() == "no data"`. */
  predicate IsNoData(s: string) {
    Lower(s) == "no data"
  }

  lemma SentinelIsClean(otherSymbol: OtherSymbolTest)
    ensures Clean(Sentinel, otherSymbol)
    ensures !IsNoData(Sentinel)
  {
    LowCodePointsAreNotEmojiLike('N', otherSymbol);
    LowCodePointsAreNotEmojiLike('A', otherSymbol);
    assert Lower(Sentinel)[1] == 'a';
  }

  /** The first half of `replace_emojis_with_space`: every emoji-like character becomes a space. */
  function EmojiToSpace(s: string, otherSymbol: OtherSymbolTest): (r: string)
    ensures |r| == |s|
    ensures NoEmoji(r, otherSymbol)
    ensures forall c :: c in r ==> c == ' ' || c in s
    ensures forall i :: 0 <= i < |s| && !IsEmojiLike(s[i], otherSymbol) ==> r[i] == s[i]
    ensures forall i :: 0 <= i < |s| && IsEmojiLike(s[i], otherSymbol) ==> r[i] == ' '
    ensures NoEmoji(s, otherSymbol) ==> r == s
  {
    SpacesAreNotEmojiLike(' ', otherSymbol);
    seq(|s|, i requires 0 <= i < |s| => if IsEmojiLike(s[i], otherSymbol) then ' ' else s[i])
  }

  /**
   * `replace_emojis_with_space`: emoji-like characters become spaces, whitespace runs
   * collapse to one space, and the ends are stripped.
   */
  function ReplaceEmojisWithSpace(s: string, otherSymbol: OtherSymbolTest): (r: string)
    ensures s == [] ==> r == []
    ensures NoEmoji(r, otherSymbol) && NoEdgeSpace(r) && Collapsed(r)
    ensures forall c :: c in r ==> c == ' ' || c in s
    ensures NoEmoji(s, otherSymbol) && NoEdgeSpace(s) && Collapsed(s) ==> r == s
  {
    if s == [] then []
    else
      var x := Collapse(EmojiToSpace(s, otherSymbol));
      assert NoEmoji(x, otherSymbol) && Collapsed(x) && forall c :: c in x ==> c == ' ' || c in s by {
        var e := EmojiToSpace(s, otherSymbol);
        CollapseShape(e);
        CollapseChars(e);
        SpacesAreNotEmojiLike(' ', otherSymbol);
      }
      assert Collapsed(Strip(x)) by {
        StripCollapsed(x);
      }
      assert NoEmoji(s, otherSymbol) && Collapsed(s) ==> x == s by {
        if NoEmoji(s, otherSymbol) && Collapsed(s) {
          CollapseCollapsed(s);
        }
      }
      Strip(x)
  }

  /** Text without emoji-like characters, edge whitespace or whitespace runs is left alone. */
  lemma ReplaceEmojisWithSpaceKeeps(s: string, otherSymbol: OtherSymbolTest)
    requires NoEmoji(s, otherSymbol) && NoEdgeSpace(s) && Collapsed(s)
    ensures ReplaceEmojisWithSpace(s, otherSymbol) == s
  {
  }

  /** A character `replace_emojis_with_space` turns into word separation: whitespace, or an emoji-like character. */
  predicate IsSeparator(c: char, otherSymbol: OtherSymbolTest) {
    IsSpace(c) || IsEmojiLike(c, otherSymbol)
  }

  predicate AllSeparators(w: string, otherSymbol: OtherSymbolTest) {
    forall c :: c in w ==> IsSeparator(c, otherSymbol)
  }

  /** Separators in front of the text make no difference to `replace_emojis_with_space`. */
  lemma ReplaceEmojisWithSpaceLead(w: string, s: string, otherSymbol: OtherSymbolTest)
    requires AllSeparators(w, otherSymbol)
    ensures ReplaceEmojisWithSpace(w + s, otherSymbol) == ReplaceEmojisWithSpace(s, otherSymbol)
  {
    ReplaceIsStripCollapse(w + s, otherSymbol);
    ReplaceIsStripCollapse(s, otherSymbol);
    EmojiToSpaceAppend(w, s, otherSymbol);
    SeparatorsBecomeSpaces(w, otherSymbol);
    StripCollapseLead(EmojiToSpace(w, otherSymbol), EmojiToSpace(s, otherSymbol));
  }

  /**
   * A word, then a run of separators, then any text: the word survives, and the run becomes
   * one space in front of what the rest of the text gives, unless that is empty. With
   * `ReplaceEmojisWithSpaceLead` and `ReplaceEmojisWithSpaceKeeps` this decides
   * `replace_emojis_with_space` on every text.
   */
  lemma ReplaceEmojisWithSpaceWord(a: string, w: string, s: string, otherSymbol: OtherSymbolTest)
    requires a != [] && NoEmoji(a, otherSymbol) && NoEdgeSpace(a) && Collapsed(a)
    requires w != [] && AllSeparators(w, otherSymbol)
    ensures var rest := ReplaceEmojisWithSpace(s, otherSymbol);
      ReplaceEmojisWithSpace(a + w + s, otherSymbol) == if rest == [] then a else a + " " + rest
  {
    var e := EmojiToSpace(w, otherSymbol);
    assert EmojiToSpace(a + w + s, otherSymbol) == a + e + EmojiToSpace(s, otherSymbol) by {
      EmojiToSpaceAppend(a + w, s, otherSymbol);
      EmojiToSpaceAppend(a, w, otherSymbol);
    }
    SeparatorsBecomeSpaces(w, otherSymbol);
    ReplaceIsStripCollapse(a + w + s, otherSymbol);
    ReplaceIsStripCollapse(s, otherSymbol);
    StripCollapseWord(a, e, EmojiToSpace(s, otherSymbol));
  }

  /** One emoji-like character between two words becomes one space; after the last word it vanishes. */
  lemma ReplaceOneEmoji(a: string, c: char, b: string, otherSymbol: OtherSymbolTest)
    requires a != [] && NoEmoji(a, otherSymbol) && NoEdgeSpace(a) && Collapsed(a)
    requires b != [] && NoEmoji(b, otherSymbol) && NoEdgeSpace(b) && Collapsed(b)
    requires IsEmojiLike(c, otherSymbol)
    ensures ReplaceEmojisWithSpace(a + [c] + b, otherSymbol) == a + " " + b
    ensures ReplaceEmojisWithSpace(a + [c], otherSymbol) == a
  {
    ReplaceEmojisWithSpaceWord(a, [c], b, otherSymbol);
    ReplaceEmojisWithSpaceWord(a, [c], [], otherSymbol);
    assert a + [c] + [] == a + [c];
  }

  /** `replace_emojis_with_space` is the collapse and strip of the text with its emoji-like characters made spaces, the empty text included. */
  lemma ReplaceIsStripCollapse(s: string, otherSymbol: OtherSymbolTest)
    ensures ReplaceEmojisWithSpace(s, otherSymbol) == Strip(Collapse(EmojiToSpace(s, otherSymbol)))
  {
    if s == [] {
      assert EmojiToSpace(s, otherSymbol) == [];
    }
  }

  lemma EmojiToSpaceAppend(x: string, y: string, otherSymbol: OtherSymbolTest)
    ensures EmojiToSpace(x + y, otherSymbol) == EmojiToSpace(x, otherSymbol) + EmojiToSpace(y, otherSymbol)
  {
    var l := EmojiToSpace(x + y, otherSymbol);
    var r := EmojiToSpace(x, otherSymbol) + EmojiToSpace(y, otherSymbol);
    forall i | 0 <= i < |l| ensures l[i] == r[i] {
      if i < |x| {
        assert (x + y)[i] == x[i];
      } else {
        assert (x + y)[i] == y[i - |x|];
      }
    }
  }

  lemma SeparatorsBecomeSpaces(w: string, otherSymbol: OtherSymbolTest)
    requires AllSeparators(w, otherSymbol)
    ensures AllSpace(EmojiToSpace(w, otherSymbol))
  {
    var e := EmojiToSpace(w, otherSymbol);
    forall i | 0 <= i < |e| ensures IsSpace(e[i]) {
      assert w[i] in w;
      SpacesAreNotEmojiLike(' ', otherSymbol);
    }
  }

  /** `strip_trailing_commas`: `re.sub(r"[,\s]+$", "", s)` removes the longest run of commas and whitespace at the end. */
  function StripTrailingCommas(s: string): (r: string)
    ensures |r| <= |s| && r == s[..|r|]
    ensures r == [] || !IsCommaOrSpace(r[|r| - 1])
    ensures forall i {:trigger s[i]} :: |r| <= i < |s| ==> IsCommaOrSpace(s[i])
  {
    if s != [] && IsCommaOrSpace(s[|s| - 1]) then StripTrailingCommas(s[..|s| - 1]) else s
  }

  /** Text that ends in a character other than a comma or whitespace loses nothing. */
  lemma StripTrailingCommasKeeps(s: string)
    requires s != [] && !IsCommaOrSpace(s[|s| - 1])
    ensures StripTrailingCommas(s) == s
  {
  }

  /** What `StripTrailingCommas` removes is exactly an all-comma-or-space tail. */
  lemma {:induction false} StripTrailingCommasTail(w: string, tail: string)
    requires w != [] && !IsCommaOrSpace(w[|w| - 1])
    requires forall c :: c in tail ==> IsCommaOrSpace(c)
    ensures StripTrailingCommas(w + tail) == w
    decreases |tail|
  {
    if tail == [] {
      assert w + tail == w;
    } else {
      var s := w + tail;
      assert s[|s| - 1] == tail[|tail| - 1] && tail[|tail| - 1] in tail;
      assert s[..|s| - 1] == w + tail[..|tail| - 1];
      assert forall c :: c in tail[..|tail| - 1] ==> c in tail;
      StripTrailingCommasTail(w, tail[..|tail| - 1]);
    }
  }

  /** `remove_all_commas`: `s.replace(",", "")`. */
  function RemoveAllCommas(s: string): (r: string)
    ensures ',' !in r
  {
    if s == [] then []
    else (if s[0] == ',' then [] else [s[0]]) + RemoveAllCommas(s[1..])
  }

  /** Text without a comma is left alone. */
  lemma {:induction false} RemoveAllCommasKeeps(s: string)
    requires ',' !in s
    ensures RemoveAllCommas(s) == s
  {
    if s != [] {
      assert s[0] in s;
      assert forall c :: c in s[1..] ==> c in s;
      RemoveAllCommasKeeps(s[1..]);
      assert s == [s[0]] + s[1..];
    }
  }

  /** `RemoveAllCommas` keeps every other character, as often as it occurs, and drops every comma. */
  lemma {:induction false} RemoveAllCommasContents(s: string)
    ensures multiset(RemoveAllCommas(s)) == multiset(s)[',' := 0]
  {
    if s != [] {
      RemoveAllCommasContents(s[1..]);
      assert s == [s[0]] + s[1..];
      assert multiset(s) == multiset{s[0]} + multiset(s[1..]);
    }
  }

  lemma {:induction false} RemoveAllCommasAppend(a: string, b: string)
    ensures RemoveAllCommas(a + b) == RemoveAllCommas(a) + RemoveAllCommas(b)
  {
    if a != [] {
      assert (a + b)[1..] == a[1..] + b;
      RemoveAllCommasAppend(a[1..], b);
      var h := if a[0] == ',' then [] else [a[0]];
      assert (a + b)[0] == a[0];
      calc {
        RemoveAllCommas(a + b);
        h + RemoveAllCommas(a[1..] + b);
        h + (RemoveAllCommas(a[1..]) + RemoveAllCommas(b));
        (h + RemoveAllCommas(a[1..])) + RemoveAllCommas(b);
        RemoveAllCommas(a) + RemoveAllCommas(b);
      }
    } else {
      assert a + b == b;
    }
  }

  /** Every character kept by `RemoveAllCommas` was in its input. */
  lemma RemoveAllCommasChars(s: string)
    ensures forall c :: c in RemoveAllCommas(s) ==> c in s && c != ','
  {
    var r := RemoveAllCommas(s);
    RemoveAllCommasContents(s);
    forall c | c in r ensures c in s && c != ',' {
      assert c in multiset(r);
    }
  }

  /** `to_na_if_empty` on a string: strip it, and give the sentinel when nothing is left. */
  function ToNaIfEmpty(s: string): (r: string)
    ensures r != [] && NoEdgeSpace(r)
    ensures r == Sentinel <==> (AllSpace(s) || Strip(s) == Sentinel)
    ensures r != Sentinel ==> r == Strip(s)
  {
    var t := Strip(s);
    assert NoEdgeSpace(Sentinel);
    if t == [] then Sentinel else t
  }

  /**
   * `sanitize_value`: `None` gives the sentinel; otherwise emoji removal, stripping and
   * trailing-comma removal, the case-insensitive "no data" test, comma removal, a second
   * whitespace collapse and strip, and the sentinel for what ends up empty.
   */
  function SanitizeValue(v: Option<string>, otherSymbol: OtherSymbolTest): (r: string)
    ensures Clean(r, otherSymbol)
    ensures v.None? ==> r == Sentinel
    ensures v.Some? && r != Sentinel ==> forall c :: c in r ==> c == ' ' || c in v.value
  {
    match v
    case None =>
      SentinelIsClean(otherSymbol);
      Sentinel
    case Some(s) =>
      var e := ReplaceEmojisWithSpace(s, otherSymbol);
      var t := StripTrailingCommas(Strip(e));
      if IsNoData(t) then
        SentinelIsClean(otherSymbol);
        Sentinel
      else
        PipelineTail(t, otherSymbol);
        assert forall c :: c in t ==> c in e;
        ToNaIfEmpty(Strip(Collapse(RemoveAllCommas(t))))
  }

  /** The steps of `sanitize_value` after the "no data" test keep emoji-free text clean. */
  lemma PipelineTail(t: string, otherSymbol: OtherSymbolTest)
    requires NoEmoji(t, otherSymbol)
    ensures Clean(ToNaIfEmpty(Strip(Collapse(RemoveAllCommas(t)))), otherSymbol)
    ensures var r := ToNaIfEmpty(Strip(Collapse(RemoveAllCommas(t))));
      r != Sentinel ==> forall c :: c in r ==> c == ' ' || c in t
  {
    var u := RemoveAllCommas(t);
    var y := Collapse(u);
    assert ',' !in y && NoEmoji(y, otherSymbol) && Collapsed(y) && forall c :: c in y ==> c == ' ' || c in t by {
      RemoveAllCommasChars(t);
      CollapseShape(u);
      CollapseChars(u);
      SpacesAreNotEmojiLike(' ', otherSymbol);
    }
    var x := Strip(y);
    assert Collapsed(x) by {
      StripCollapsed(y);
    }
    SentinelIsClean(otherSymbol);
    if x != [] {
      assert ToNaIfEmpty(x) == x;
    }
  }

  /**
   * `sanitize_value` keeps the first character of text that starts with a character other
   * than whitespace, a comma or an emoji-like character; the sentinel it may return instead is
   * only for a spelling of "no data", which starts with 'n' or 'N'.
   */
  lemma SanitizeKeepsFirst(s: string, otherSymbol: OtherSymbolTest)
    requires s != [] && !IsSpace(s[0]) && s[0] != ',' && !IsEmojiLike(s[0], otherSymbol)
    ensures var r := SanitizeValue(Some(s), otherSymbol);
      r[0] == s[0] || (r == Sentinel && (s[0] == 'n' || s[0] == 'N'))
  {
    var c := s[0];
    var e0 := EmojiToSpace(s, otherSymbol);
    assert e0[0] == c;
    CollapseKeepsFirst(e0);
    StripKeepsFirst(Collapse(e0));
    var e := ReplaceEmojisWithSpace(s, otherSymbol);
    assert e == Strip(Collapse(e0));
    StripKeepsFirst(e);
    var u := Strip(e);
    var t := StripTrailingCommas(u);
    assert t != [] && t[0] == c;
    if IsNoData(t) {
      NoDataShape(t, otherSymbol);
    } else {
      var x := RemoveAllCommas(t);
      assert x[0] == c;
      CollapseKeepsFirst(x);
      StripKeepsFirst(Collapse(x));
    }
  }

  /** ASCII text (indeed, any text below U+2600 without the joiner) has no emoji-like character. */
  lemma LowTextHasNoEmoji(s: string, otherSymbol: OtherSymbolTest)
    requires forall c :: c in s ==> c as int < 0x2600 && c as int != 0x200D
    ensures NoEmoji(s, otherSymbol)
  {
    forall c | c in s ensures !IsEmojiLike(c, otherSymbol) {
      LowCodePointsAreNotEmojiLike(c, otherSymbol);
    }
  }

  /** Joining texts without emoji gives text without emoji. */
  lemma NoEmojiConcat(a: string, b: string, otherSymbol: OtherSymbolTest)
    requires NoEmoji(a, otherSymbol) && NoEmoji(b, otherSymbol)
    ensures NoEmoji(a + b, otherSymbol)
  {
    forall c | c in a + b ensures !IsEmojiLike(c, otherSymbol) {
      assert c in a || c in b;
    }
  }

  /** Every spelling of "no data" has seven characters, a plain space in the middle and is clean. */
  lemma NoDataShape(w: string, otherSymbol: OtherSymbolTest)
    requires IsNoData(w)
    ensures |w| == 7 && w[2] == ' ' && (w[0] == 'n' || w[0] == 'N')
    ensures Clean(w, otherSymbol)
  {
    var lw := Lower(w);
    assert |w| == 7;
    forall i | 0 <= i < 7
      ensures w[i] as int < 0x80
      ensures i == 2 ==> w[i] == ' '
      ensures i != 2 ==> !IsSpace(w[i]) && w[i] != ','
    {
      assert lw[i] == LowerChar(w[i]) == "no data"[i];
    }
    LowTextHasNoEmoji(w, otherSymbol);
    assert ',' !in w by {
      forall i | 0 <= i < |w| ensures w[i] != ',' { }
    }
    assert forall c :: c in w[3..] ==> !IsSpace(c) by {
      forall j | 0 <= j < |w[3..]| ensures !IsSpace(w[3..][j]) {
        assert w[3..][j] == w[3 + j];
      }
    }
    NoSpaceCollapsed(w[3..]);
    assert Collapsed(w[2..]) by {
      assert w[2..][0] == ' ' && w[2..][1] == w[3];
      assert w[2..][1..] == w[3..];
    }
    assert Collapsed(w[1..]) by {
      assert w[1..][0] == w[1];
      assert w[1..][1..] == w[2..];
    }
  }

  /**
   * On clean text `SanitizeValue` changes nothing, except that a case-insensitive
   * "no data" becomes the sentinel.
   */
  lemma SanitizeClean(t: string, otherSymbol: OtherSymbolTest)
    requires Clean(t, otherSymbol)
    ensures SanitizeValue(Some(t), otherSymbol) == if IsNoData(t) then Sentinel else t
  {
    CleanPrepass(t, otherSymbol);
    SanitizeAfterPrepass(t, t, otherSymbol);
  }

  /** Text whose first steps give clean text `t` sanitises to `t`, or to the sentinel for "no data". */
  lemma SanitizeAfterPrepass(s: string, t: string, otherSymbol: OtherSymbolTest)
    requires Clean(t, otherSymbol)
    requires StripTrailingCommas(Strip(ReplaceEmojisWithSpace(s, otherSymbol))) == t
    ensures SanitizeValue(Some(s), otherSymbol) == if IsNoData(t) then Sentinel else t
  {
    if !IsNoData(t) {
      CleanTail(t, otherSymbol);
    }
  }

  /** The steps of `sanitize_value` before the "no data" test leave clean text alone. */
  lemma CleanPrepass(t: string, otherSymbol: OtherSymbolTest)
    requires Clean(t, otherSymbol)
    ensures StripTrailingCommas(Strip(ReplaceEmojisWithSpace(t, otherSymbol))) == t
  {
    assert ReplaceEmojisWithSpace(t, otherSymbol) == t;
    StripTrailingCommasKeeps(t);
  }

  /** The steps of `sanitize_value` after the "no data" test leave clean text alone. */
  lemma CleanTail(t: string, otherSymbol: OtherSymbolTest)
    requires Clean(t, otherSymbol)
    ensures ToNaIfEmpty(Strip(Collapse(RemoveAllCommas(t)))) == t
  {
    RemoveAllCommasKeeps(t);
    CollapseCollapsed(t);
    assert Strip(t) == t;
  }

  /**
   * `sanitize_value` is idempotent exactly when its result is not a spelling of "no data":
   * "no, data" gives "no data", and that gives the sentinel.
   */
  lemma SanitizeIdempotentIff(v: Option<string>, otherSymbol: OtherSymbolTest)
    ensures var r := SanitizeValue(v, otherSymbol);
      SanitizeValue(Some(r), otherSymbol) == r <==> !IsNoData(r)
  {
    var r := SanitizeValue(v, otherSymbol);
    SanitizeClean(r, otherSymbol);
    SentinelIsClean(otherSymbol);
  }

  /** Whitespace, clean text, and commas and whitespace hold no emoji-like character. */
  lemma PaddedHasNoEmoji(lead: string, w: string, tail: string, otherSymbol: OtherSymbolTest)
    requires AllSpace(lead) && Clean(w, otherSymbol)
    requires forall c :: c in tail ==> IsCommaOrSpace(c)
    ensures NoEmoji(lead + w + tail, otherSymbol)
  {
    forall c | c in lead + w + tail ensures !IsEmojiLike(c, otherSymbol) {
      if c in lead {
        var i :| 0 <= i < |lead| && lead[i] == c;
        assert IsSpace(lead[i]);
        SpacesAreNotEmojiLike(c, otherSymbol);
      } else if c in tail {
        if c == ',' {
          LowCodePointsAreNotEmojiLike(c, otherSymbol);
        } else {
          SpacesAreNotEmojiLike(c, otherSymbol);
        }
      }
    }
  }

  /**
   * Emoji replacement followed by trailing-comma removal recovers clean text from
   * whitespace before it and commas and whitespace after it.
   */
  lemma PaddedPrepass(lead: string, w: string, tail: string, otherSymbol: OtherSymbolTest)
    requires AllSpace(lead) && Clean(w, otherSymbol)
    requires forall c :: c in tail ==> IsCommaOrSpace(c)
    ensures StripTrailingCommas(ReplaceEmojisWithSpace(lead + w + tail, otherSymbol)) == w
  {
    PaddedHasNoEmoji(lead, w, tail, otherSymbol);
    var s := lead + w + tail;
    // The emoji pass leaves `s` alone; collapsing gives `p + w + c` with `p` at most one space.
    var p: string := if lead == [] then [] else [' '];
    var c := Collapse(tail);
    CollapseLeadAndTail(lead, w, tail);
    // Stripping keeps `w` and a tail of commas and spaces, which the trailing-comma pass drops.
    StripLeadAndTail(p, w, c);
    var c' := TrimRight(c);
    assert forall ch :: ch in c' ==> IsCommaOrSpace(ch) by {
      CollapseChars(tail);
      forall ch | ch in c' ensures IsCommaOrSpace(ch) {
        assert ch in c;
      }
    }
    assert ReplaceEmojisWithSpace(s, otherSymbol) == w + c';
    assert w[|w| - 1] in w;
    StripTrailingCommasTail(w, c');
  }

  /**
   * Whitespace before, and commas and whitespace after, clean text do not change what
   * `SanitizeValue` makes of it; in particular the "no data" test is case-insensitive and
   * runs after the ends are stripped and trailing commas removed.
   */
  lemma SanitizePadded(lead: string, w: string, tail: string, otherSymbol: OtherSymbolTest)
    requires AllSpace(lead) && Clean(w, otherSymbol)
    requires forall c :: c in tail ==> IsCommaOrSpace(c)
    ensures SanitizeValue(Some(lead + w + tail), otherSymbol) == if IsNoData(w) then Sentinel else w
  {
    var s := lead + w + tail;
    var e := ReplaceEmojisWithSpace(s, otherSymbol);
    assert StripTrailingCommas(Strip(e)) == w by {
      PaddedPrepass(lead, w, tail, otherSymbol);
      assert Strip(e) == e;
    }
    SanitizeAfterPrepass(s, w, otherSymbol);
  }

  /** "No data," gives the sentinel. */
  lemma NoDataTrailingComma(otherSymbol: OtherSymbolTest)
    ensures SanitizeValue(Some("No data,"), otherSymbol) == Sentinel
  {
    var w := "No data";
    assert IsNoData(w) by {
      assert Lower(w) == "no data";
    }
    NoDataShape(w, otherSymbol);
    TrailingCommaParts();
    SanitizePadded([], w, [','], otherSymbol);
  }

  /** " NO DATA , " gives the sentinel. */
  lemma NoDataUpperCasePadded(otherSymbol: OtherSymbolTest)
    ensures SanitizeValue(Some(" NO DATA , "), otherSymbol) == Sentinel
  {
    var w := "NO DATA";
    assert IsNoData(w) && Clean(w, otherSymbol) by {
      assert Lower(w) == "no data";
      NoDataShape(w, otherSymbol);
    }
    assert AllSpace([' ']) && forall c :: c in [' ', ',', ' '] ==> IsCommaOrSpace(c);
    UpperCasePaddedParts();
    SanitizePadded([' '], w, [' ', ',', ' '], otherSymbol);
  }

  /** A comma inside clean text is dropped and nothing else changes, unless the text with the comma already reads "no data". */
  lemma SanitizeInnerComma(a: string, b: string, otherSymbol: OtherSymbolTest)
    requires a != [] && b != [] && Clean(a + b, otherSymbol)
    requires !IsNoData(a + [','] + b)
    ensures SanitizeValue(Some(a + [','] + b), otherSymbol) == a + b
  {
    var s := a + [','] + b;
    InnerCommaShape(a, b, otherSymbol);
    assert ReplaceEmojisWithSpace(s, otherSymbol) == s;
    StripTrailingCommasKeeps(s);
    RemoveOneComma(a, b);
    CollapseCollapsed(a + b);
  }

  /** Clean text with a comma inserted has no emoji-like character and no whitespace out of place, and ends in neither a comma nor whitespace. */
  lemma InnerCommaShape(a: string, b: string, otherSymbol: OtherSymbolTest)
    requires a != [] && b != [] && Clean(a + b, otherSymbol)
    ensures var s := a + [','] + b;
      NoEmoji(s, otherSymbol) && NoEdgeSpace(s) && Collapsed(s) && !IsCommaOrSpace(s[|s| - 1])
    ensures ',' !in a && ',' !in b
  {
    var s := a + [','] + b;
    assert (a + b)[0] == s[0] && (a + b)[|a + b| - 1] == s[|s| - 1];
    assert s[|s| - 1] in a + b;
    CollapsedInsert(a, ',', b);
    LowCodePointsAreNotEmojiLike(',', otherSymbol);
    forall ch | ch in s ensures !IsEmojiLike(ch, otherSymbol) {
      assert ch == ',' || ch in a + b;
    }
    assert forall ch :: ch in a ==> ch in a + b;
    assert forall ch :: ch in b ==> ch in a + b;
  }

  lemma {:induction false} RemoveOneComma(a: string, b: string)
    requires ',' !in a && ',' !in b
    ensures RemoveAllCommas(a + [','] + b) == a + b
  {
    var s := a + [','] + b;
    if a == [] {
      assert s[0] == ',' && s[1..] == b;
      RemoveAllCommasKeeps(b);
    } else {
      assert s[0] == a[0] && s[1..] == a[1..] + [','] + b;
      assert forall c :: c in a[1..] ==> c in a;
      RemoveOneComma(a[1..], b);
      assert a[0] in a;
      assert a + b == [a[0]] + (a[1..] + b);
    }
  }

  /** "no, data" is not a spelling of "no data", but its sanitised form is, so a second pass gives the sentinel. */
  lemma NoCommaDataTwice(otherSymbol: OtherSymbolTest)
    ensures SanitizeValue(Some("no, data"), otherSymbol) == "no data"
    ensures SanitizeValue(Some("no data"), otherSymbol) == Sentinel
  {
    var u := "no data";
    assert IsNoData(u) && Clean(u, otherSymbol) by {
      LowerOfLower(u);
      NoDataShape(u, otherSymbol);
    }
    assert SanitizeValue(Some("no, data"), otherSymbol) == u by {
      InnerCommaParts();
      SanitizeInnerComma("no", " data", otherSymbol);
    }
    SanitizeClean(u, otherSymbol);
  }

  /**
   * Two clean texts with a run of separators (emoji-like characters or whitespace) between
   * them sanitise to the two joined by one space, unless that reads "no data".
   */
  lemma SanitizeSeparated(a: string, w: string, b: string, otherSymbol: OtherSymbolTest)
    requires Clean(a, otherSymbol) && Clean(b, otherSymbol)
    requires w != [] && AllSeparators(w, otherSymbol)
    ensures var t := a + " " + b;
      SanitizeValue(Some(a + w + b), otherSymbol) == if IsNoData(t) then Sentinel else t
  {
    var t := a + " " + b;
    assert ReplaceEmojisWithSpace(a + w + b, otherSymbol) == t by {
      ReplaceEmojisWithSpaceKeeps(b, otherSymbol);
      ReplaceEmojisWithSpaceWord(a, w, b, otherSymbol);
    }
    CleanJoin(a, b, otherSymbol);
    assert StripTrailingCommas(Strip(t)) == t by {
      assert t[|t| - 1] == b[|b| - 1];
      StripTrailingCommasKeeps(t);
    }
    SanitizeAfterPrepass(a + w + b, t, otherSymbol);
  }

  /** Clean text followed by separators sanitises as the clean text alone. */
  lemma SanitizeTrailingSeparators(a: string, w: string, otherSymbol: OtherSymbolTest)
    requires Clean(a, otherSymbol) && AllSeparators(w, otherSymbol)
    ensures SanitizeValue(Some(a + w), otherSymbol) == if IsNoData(a) then Sentinel else a
  {
    if w == [] {
      assert a + w == a;
      SanitizeClean(a, otherSymbol);
    } else {
      assert ReplaceEmojisWithSpace(a + w, otherSymbol) == a by {
        ReplaceEmojisWithSpaceWord(a, w, [], otherSymbol);
        assert a + w + [] == a + w;
      }
      CleanPrepass(a, otherSymbol);
      SanitizeAfterPrepass(a + w, a, otherSymbol);
    }
  }

  /** Two clean texts joined by one space are clean. */
  lemma CleanJoin(a: string, b: string, otherSymbol: OtherSymbolTest)
    requires Clean(a, otherSymbol) && Clean(b, otherSymbol)
    ensures Clean(a + " " + b, otherSymbol)
  {
    var t := a + " " + b;
    assert t == a + ([' '] + b);
    SpacesAreNotEmojiLike(' ', otherSymbol);
    NoEmojiConcat(a, [' '], otherSymbol);
    NoEmojiConcat(a + [' '], b, otherSymbol);
    assert t[0] == a[0] && t[|t| - 1] == b[|b| - 1];
    CollapsedAfterSpace(b);
    CollapsedConcat(a, [' '] + b);
  }

  /** "b" followed by a thumbs-up sign (U+1F44D) sanitises to "b". */
  lemma SanitizeEmojiAtEnd(otherSymbol: OtherSymbolTest)
    ensures SanitizeValue(Some("b\U{1F44D}"), otherSymbol) == "b"
  {
    var a := "b";
    var thumb := '\U{1F44D}';
    assert Clean(a, otherSymbol) && !IsNoData(a) by {
      LowTextHasNoEmoji(a, otherSymbol);
    }
    assert AllSeparators([thumb], otherSymbol) by {
      BlocksAreEmojiLike(thumb, 1, otherSymbol);
    }
    EmojiAtEndParts();
    SanitizeTrailingSeparators(a, [thumb], otherSymbol);
  }

  lemma EmojiAtEndParts()
    ensures "b" + ['\U{1F44D}'] == "b\U{1F44D}"
  {
  }

  lemma TrailingCommaParts()
    ensures [] + "No data" + [','] == "No data,"
  {
  }

  lemma UpperCasePaddedParts()
    ensures [' '] + "NO DATA" + [' ', ',', ' '] == " NO DATA , "
  {
  }

  lemma InnerCommaParts()
    ensures "no" + " data" == "no data" && "no" + [','] + " data" == "no, data"
  {
  }
}
