/**
 * `parse_bool`, which reduces a value to "true", "false" or the sentinel, and the
 * preparation it shares with `parse_story_pin_media`; how both relate to `sanitize_value`.
 */
module ValueParsers {
  import opened Wrappers
  import opened Text
  import opened Emoji
  import opened Sanitizers

  const TrueText: string := "true"
  const FalseText: string := "false"

  /**
   * The preparation `parse_bool` and `parse_story_pin_media` share: the emoji pass, then
   * trailing commas and whitespace removed, then `strip()`, which by then changes nothing.
   */
  function Prepared(s: string, otherSymbol: OtherSymbolTest): (r: string)
    ensures r == StripTrailingCommas(ReplaceEmojisWithSpace(s, otherSymbol))
    ensures NoEmoji(r, otherSymbol) && NoEdgeSpace(r) && Collapsed(r)
    ensures r == [] || !IsCommaOrSpace(r[|r| - 1])
  {
    var u := StripTrailingCommas(ReplaceEmojisWithSpace(s, otherSymbol));
    assert Strip(u) == u by {
      PreparedShape(s, otherSymbol);
    }
    PreparedShape(s, otherSymbol);
    Strip(u)
  }

  /** After the emoji pass and the trailing-comma pass the text is already stripped. */
  lemma PreparedShape(s: string, otherSymbol: OtherSymbolTest)
    ensures var u := StripTrailingCommas(ReplaceEmojisWithSpace(s, otherSymbol));
      NoEmoji(u, otherSymbol) && NoEdgeSpace(u) && Collapsed(u)
  {
    var e := ReplaceEmojisWithSpace(s, otherSymbol);
    var u := StripTrailingCommas(e);
    assert NoEdgeSpace(u) by {
      assert u != [] ==> u[0] == e[0];
    }
    assert Collapsed(u) by {
      CollapsedPrefix(e, |u|);
    }
    assert NoEmoji(u, otherSymbol) by {
      assert forall c :: c in u ==> c in e;
    }
  }

  /** Text the emoji pass leaves alone and that ends in neither a comma nor whitespace is its own prepared form. */
  lemma PreparedKeeps(s: string, otherSymbol: OtherSymbolTest)
    requires NoEmoji(s, otherSymbol) && NoEdgeSpace(s) && Collapsed(s)
    requires s != [] && !IsCommaOrSpace(s[|s| - 1])
    ensures ReplaceEmojisWithSpace(s, otherSymbol) == s && Prepared(s, otherSymbol) == s
  {
    ReplaceEmojisWithSpaceKeeps(s, otherSymbol);
    StripTrailingCommasKeeps(s);
  }

  // ---- parse_bool ----

  /** `parse_bool`: "true" or "false" when the prepared, comma-free text reads so in lower case, else the sentinel. */
  function ParseBool(v: Option<string>, otherSymbol: OtherSymbolTest): (r: string)
    ensures r == TrueText || r == FalseText || r == Sentinel
    ensures v.None? ==> r == Sentinel
  {
    match v
    case None => Sentinel
    case Some(s) =>
      var t := Lower(RemoveAllCommas(Prepared(s, otherSymbol)));
      if t == TrueText then TrueText
      else if t == FalseText then FalseText
      else Sentinel
  }

  /** Text whose lower-case form is "true" or "false" has no whitespace, so collapsing and stripping leave it alone. */
  lemma BoolWordShape(u: string)
    requires Lower(u) == TrueText || Lower(u) == FalseText
    ensures u != [] && NoEdgeSpace(u) && Collapsed(u)
  {
    forall c | c in u ensures !IsSpace(c) {
      var i :| 0 <= i < |u| && u[i] == c;
      assert Lower(u)[i] == LowerChar(c);
    }
    NoSpaceCollapsed(u);
    assert u[0] in u && u[|u| - 1] in u;
  }

  /** `sanitize_value` sees the same prepared text as `parse_bool` and `parse_story_pin_media`. */
  lemma SanitizeViaPrepared(s: string, otherSymbol: OtherSymbolTest)
    ensures var t := Prepared(s, otherSymbol);
      SanitizeValue(Some(s), otherSymbol) ==
        if IsNoData(t) then Sentinel else ToNaIfEmpty(Strip(Collapse(RemoveAllCommas(t))))
  {
    var e := ReplaceEmojisWithSpace(s, otherSymbol);
    assert Strip(e) == e;
  }

  /** Text whose comma-free form reads "true" or "false" does not read "no data", and the rest of `sanitize_value` keeps its comma-free form. */
  lemma BoolWordSanitized(t: string, otherSymbol: OtherSymbolTest)
    requires Lower(RemoveAllCommas(t)) == TrueText || Lower(RemoveAllCommas(t)) == FalseText
    ensures !IsNoData(t)
    ensures ToNaIfEmpty(Strip(Collapse(RemoveAllCommas(t)))) == RemoveAllCommas(t)
  {
    var u := RemoveAllCommas(t);
    if IsNoData(t) {
      NoDataShape(t, otherSymbol);
      RemoveAllCommasKeeps(t);
    }
    BoolWordShape(u);
    CollapseCollapsed(u);
    assert Strip(u) == u;
  }

  /**
   * Whenever `parse_bool` gives "true" or "false", `sanitize_value` gives the same word up
   * to case: both see the same prepared text, which cannot read "no data".
   */
  lemma ParseBoolAgreesWithSanitize(v: Option<string>, otherSymbol: OtherSymbolTest)
    requires ParseBool(v, otherSymbol) != Sentinel
    ensures ParseBool(v, otherSymbol) == Lower(SanitizeValue(v, otherSymbol))
  {
    var t := Prepared(v.value, otherSymbol);
    var u := RemoveAllCommas(t);
    assert ParseBool(v, otherSymbol) == Lower(u);
    SanitizeViaPrepared(v.value, otherSymbol);
    BoolWordSanitized(t, otherSymbol);
    assert SanitizeValue(v, otherSymbol) == u;
  }

  /** On clean text `parse_bool` compares the text itself, in lower case. */
  lemma ParseBoolClean(w: string, otherSymbol: OtherSymbolTest)
    requires Clean(w, otherSymbol)
    ensures ParseBool(Some(w), otherSymbol) ==
      if Lower(w) == TrueText then TrueText
      else if Lower(w) == FalseText then FalseText
      else Sentinel
  {
    assert ReplaceEmojisWithSpace(w, otherSymbol) == w;
    StripTrailingCommasKeeps(w);
    RemoveAllCommasKeeps(w);
  }

  /** Whitespace before, and commas and whitespace after, clean text do not change what `parse_bool` makes of it. */
  lemma ParseBoolPadded(lead: string, w: string, tail: string, otherSymbol: OtherSymbolTest)
    requires AllSpace(lead) && Clean(w, otherSymbol)
    requires forall c :: c in tail ==> IsCommaOrSpace(c)
    ensures ParseBool(Some(lead + w + tail), otherSymbol) == ParseBool(Some(w), otherSymbol)
  {
    PaddedPrepass(lead, w, tail, otherSymbol);
    ParseBoolClean(w, otherSymbol);
    RemoveAllCommasKeeps(w);
  }

  /** Text below U+2600 without whitespace, commas or the joiner is clean. */
  lemma PlainWordIsClean(w: string, otherSymbol: OtherSymbolTest)
    requires w != []
    requires forall c :: c in w ==> c as int < 0x2600 && c as int != 0x200D && !IsSpace(c) && c != ','
    ensures Clean(w, otherSymbol)
  {
    LowTextHasNoEmoji(w, otherSymbol);
    NoSpaceCollapsed(w);
    assert w[0] in w && w[|w| - 1] in w;
  }

  /** "True" gives "true". */
  lemma ParseBoolTrue(otherSymbol: OtherSymbolTest)
    ensures ParseBool(Some("True"), otherSymbol) == TrueText
  {
    PlainWordIsClean("True", otherSymbol);
    assert Lower("True") == TrueText;
    ParseBoolClean("True", otherSymbol);
  }

  /** "FALSE, " gives "false". */
  lemma ParseBoolFalsePadded(otherSymbol: OtherSymbolTest)
    ensures ParseBool(Some("FALSE, "), otherSymbol) == FalseText
  {
    var f := "FALSE";
    PlainWordIsClean(f, otherSymbol);
    assert Lower(f) == FalseText;
    FalsePaddedParts();
    ParseBoolPadded([], f, [',', ' '], otherSymbol);
    ParseBoolClean(f, otherSymbol);
  }

  /** `None`, the empty text and "No data" give the sentinel. */
  lemma ParseBoolMissing(otherSymbol: OtherSymbolTest)
    ensures ParseBool(None, otherSymbol) == Sentinel
    ensures ParseBool(Some(""), otherSymbol) == Sentinel
    ensures ParseBool(Some("No data"), otherSymbol) == Sentinel
  {
    assert Prepared("", otherSymbol) == "";
    var w := "No data";
    assert Lower(w) == "no data";
    NoDataShape(w, otherSymbol);
    ParseBoolClean(w, otherSymbol);
  }

  /** Commas are removed before the comparison: a comma inside clean text makes no difference to `parse_bool`. */
  lemma ParseBoolInnerCommaIgnored(a: string, b: string, otherSymbol: OtherSymbolTest)
    requires a != [] && b != [] && Clean(a + b, otherSymbol)
    ensures ParseBool(Some(a + [','] + b), otherSymbol) == ParseBool(Some(a + b), otherSymbol)
  {
    var s := a + [','] + b;
    InnerCommaShape(a, b, otherSymbol);
    assert ReplaceEmojisWithSpace(s, otherSymbol) == s;
    StripTrailingCommasKeeps(s);
    assert Prepared(s, otherSymbol) == s;
    RemoveOneComma(a, b);
    ParseBoolClean(a + b, otherSymbol);
    RemoveAllCommasKeeps(a + b);
  }

  /** "tr,ue" gives "true". */
  lemma ParseBoolInnerComma(otherSymbol: OtherSymbolTest)
    ensures ParseBool(Some("tr,ue"), otherSymbol) == TrueText
  {
    var w := "true";
    InnerCommaTrueParts();
    PlainWordIsClean(w, otherSymbol);
    LowerOfLower(w);
    ParseBoolInnerCommaIgnored("tr", "ue", otherSymbol);
    ParseBoolClean(w, otherSymbol);
  }

  /** A comma and a space before clean text: no emoji-like character, no whitespace out of place, and the only comma first. */
  lemma CommaSpaceBefore(w: string, otherSymbol: OtherSymbolTest)
    requires Clean(w, otherSymbol)
    ensures var s := [',', ' '] + w;
      && NoEmoji(s, otherSymbol) && NoEdgeSpace(s) && Collapsed(s) && !IsCommaOrSpace(s[|s| - 1])
      && Collapsed([' '] + w) && ',' !in [' '] + w
      && s == [','] + ([' '] + w)
  {
    var s := [',', ' '] + w;
    var u := [' '] + w;
    assert s[1..] == u && s[0] == ',' && s[|s| - 1] == w[|w| - 1] && w[|w| - 1] in w;
    assert Collapsed(u) by {
      CollapsedAfterSpace(w);
    }
    assert Collapsed(s) by {
      assert Collapsed([',']);
      CollapsedConcat([','], u);
      assert [','] + u == s;
    }
    assert NoEmoji(s, otherSymbol) by {
      LowCodePointsAreNotEmojiLike(',', otherSymbol);
      SpacesAreNotEmojiLike(' ', otherSymbol);
      forall c | c in s ensures !IsEmojiLike(c, otherSymbol) {
        assert c == ',' || c == ' ' || c in w;
      }
    }
    assert ',' !in u by {
      forall i | 0 <= i < |u| ensures u[i] != ',' {
        if i > 0 {
          assert u[i] == w[i - 1] && w[i - 1] in w;
        }
      }
    }
  }

  /** A comma and a space before clean text: the space survives comma removal in `parse_bool`, but not in `sanitize_value`. */
  lemma LeadingCommaShape(w: string, otherSymbol: OtherSymbolTest)
    requires Clean(w, otherSymbol)
    ensures var s := [',', ' '] + w;
      && ReplaceEmojisWithSpace(s, otherSymbol) == s
      && Prepared(s, otherSymbol) == s
      && RemoveAllCommas(s) == [' '] + w
      && Collapsed([' '] + w)
  {
    var s := [',', ' '] + w;
    var u := [' '] + w;
    CommaSpaceBefore(w, otherSymbol);
    assert ReplaceEmojisWithSpace(s, otherSymbol) == s && Prepared(s, otherSymbol) == s by {
      PreparedKeeps(s, otherSymbol);
    }
    assert RemoveAllCommas(s) == u by {
      RemoveLeadingComma(u);
    }
  }

  /** Stripping one space before text without edge whitespace gives that text. */
  lemma StripAfterSpace(w: string)
    requires w != [] && NoEdgeSpace(w)
    ensures Strip([' '] + w) == w
  {
    assert [' '] + w + [] == [' '] + w;
    StripPadded([' '], w, []);
  }

  /** Comma removal drops a leading comma from text with no other comma. */
  lemma RemoveLeadingComma(u: string)
    requires ',' !in u
    ensures RemoveAllCommas([','] + u) == u
  {
    RemoveOneComma([], u);
    assert [] + [','] + u == [','] + u;
  }

  /**
   * Comma removal comes after the last strip in `parse_bool`: a comma and a space before
   * any clean text leave a leading space, so `parse_bool` gives the sentinel.
   */
  lemma ParseBoolLeadingComma(w: string, otherSymbol: OtherSymbolTest)
    requires Clean(w, otherSymbol)
    ensures ParseBool(Some([',', ' '] + w), otherSymbol) == Sentinel
  {
    var s := [',', ' '] + w;
    var u := [' '] + w;
    LeadingCommaShape(w, otherSymbol);
    var t := Lower(RemoveAllCommas(Prepared(s, otherSymbol)));
    assert t == Lower(u);
    assert t[0] == ' ';
    assert t != TrueText && t != FalseText by {
      assert TrueText[0] != ' ' && FalseText[0] != ' ';
    }
  }

  /** In `sanitize_value` comma removal comes before the last strip: a comma and a space before clean text vanish. */
  lemma SanitizeLeadingComma(w: string, otherSymbol: OtherSymbolTest)
    requires Clean(w, otherSymbol)
    ensures SanitizeValue(Some([',', ' '] + w), otherSymbol) == w
  {
    var s := [',', ' '] + w;
    LeadingCommaPrepared(w, otherSymbol);
    SanitizePreparedTo(s, w, otherSymbol);
  }

  /** What `sanitize_value` needs to know about a comma and a space before clean text. */
  lemma LeadingCommaPrepared(w: string, otherSymbol: OtherSymbolTest)
    requires Clean(w, otherSymbol)
    ensures var s := [',', ' '] + w;
      && Prepared(s, otherSymbol) == s && !IsNoData(s)
      && Strip(Collapse(RemoveAllCommas(s))) == w && w != [] && NoEdgeSpace(w)
  {
    var s := [',', ' '] + w;
    var u := [' '] + w;
    assert Prepared(s, otherSymbol) == s && RemoveAllCommas(s) == u && Collapsed(u) by {
      LeadingCommaShape(w, otherSymbol);
    }
    assert Strip(Collapse(u)) == w by {
      CollapseCollapsed(u);
      StripAfterSpace(w);
    }
    assert !IsNoData(s) by {
      if IsNoData(s) {
        NoDataShape(s, otherSymbol);
      }
    }
    assert w[0] in w;
  }

  /** Prepared text that is not "no data" and whose comma-free, collapsed, stripped form is non-empty `w` sanitises to `w`. */
  lemma SanitizePreparedTo(s: string, w: string, otherSymbol: OtherSymbolTest)
    requires Prepared(s, otherSymbol) == s && !IsNoData(s)
    requires Strip(Collapse(RemoveAllCommas(s))) == w && w != [] && NoEdgeSpace(w)
    ensures SanitizeValue(Some(s), otherSymbol) == w
  {
    SanitizeViaPrepared(s, otherSymbol);
    assert Strip(w) == w;
  }

  /** ", true" sanitises to "true" yet parses to the sentinel. */
  lemma LeadingCommaTrue(otherSymbol: OtherSymbolTest)
    ensures ParseBool(Some(", true"), otherSymbol) == Sentinel
    ensures SanitizeValue(Some(", true"), otherSymbol) == TrueText
  {
    var w := "true";
    PlainWordIsClean(w, otherSymbol);
    LowerOfLower(w);
    LeadingCommaTrueParts();
    ParseBoolLeadingComma(w, otherSymbol);
    SanitizeLeadingComma(w, otherSymbol);
  }

  /** Both answers of `parse_bool` are values `sanitize_value` could have produced. */
  lemma BoolTextsAreClean(otherSymbol: OtherSymbolTest)
    ensures Clean(TrueText, otherSymbol) && Clean(FalseText, otherSymbol) && Clean(Sentinel, otherSymbol)
  {
    PlainWordIsClean(TrueText, otherSymbol);
    PlainWordIsClean(FalseText, otherSymbol);
    SentinelIsClean(otherSymbol);
  }

  lemma FalsePaddedParts()
    ensures [] + "FALSE" + [',', ' '] == "FALSE, "
  {
  }

  lemma InnerCommaTrueParts()
    ensures "tr" + "ue" == "true" && "tr" + [','] + "ue" == "tr,ue"
  {
  }

  lemma LeadingCommaTrueParts()
    ensures [',', ' '] + "true" == ", true"
  {
  }
}
