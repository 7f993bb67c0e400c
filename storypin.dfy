/**
 * `parse_story_pin_media`: the image identifiers of a story pin's media list, joined with
 * '|', read from the Python literal list when it decodes and by a text scan otherwise.
 */
module StoryPin {
  import opened Wrappers
  import opened Text
  import opened Emoji
  import opened Sanitizers
  import opened ValueParsers
  import opened ImageScan

  /**
   * Python's `ast.literal_eval` applied to the bracketed block, followed by the tests the
   * converter makes on what it returns. `None` stands for a block that fails to parse or is
   * not a list; each item of a list is `Some(str(item["image"]))` for a dictionary with an
   * "image" key and `None` for any other item.
   */
  type LiteralDecoder = string -> Option<seq<Option<string>>>

  /**
   * `re.search(r"(\[.*\])", s, flags=re.DOTALL)`: the greedy match runs from the first
   * '[' to the last ']', and there is none when no ']' follows the first '['.
   */
  function BracketBlock(s: string): (r: Option<string>)
    ensures r.Some? ==> 2 <= |r.value| && r.value[0] == '[' && r.value[|r.value| - 1] == ']'
  {
    match FirstIndex(s, '[')
    case None => None
    case Some(i) =>
      match LastIndex(s, ']')
      case None => None
      case Some(j) => if i < j then Some(s[i..j + 1]) else None
  }

  /** There is a bracketed block exactly when some '[' comes before some ']'. */
  lemma BracketBlockExists(s: string)
    ensures BracketBlock(s).Some? <==>
      exists i, j :: 0 <= i < j < |s| && s[i] == '[' && s[j] == ']'
  {
    var fi := FirstIndex(s, '[');
    var la := LastIndex(s, ']');
    if fi.Some? && la.Some? {
      forall i, j | 0 <= i < j < |s| && s[i] == '[' && s[j] == ']'
        ensures fi.value < la.value
      {
      }
    }
  }

  /** The block between a '[' with none before it and a later ']' with none after it. */
  lemma BracketBlockAt(s: string, i: nat, j: nat)
    requires i < j < |s| && s[i] == '[' && '[' !in s[..i] && s[j] == ']' && ']' !in s[j + 1..]
    ensures BracketBlock(s) == Some(s[i..j + 1])
  {
    FirstIndexAt(s, '[', i);
    LastIndexAt(s, ']', j);
  }

  /** The block runs from the first '[' to the last ']', whatever lies between them. */
  lemma BracketBlockGreedy(p: string, m: string, q: string)
    requires '[' !in p && ']' !in q
    ensures BracketBlock(p + ['['] + m + [']'] + q) == Some(['['] + m + [']'])
  {
    var s := p + ['['] + m + [']'] + q;
    var i, j := |p|, |p| + |m| + 1;
    assert s[..i] == p;
    assert s[j + 1..] == q;
    assert s[i..j + 1] == ['['] + m + [']'];
    BracketBlockAt(s, i, j);
  }

  /** The list decoded from the bracketed block of `t`, if there is one. */
  function DecodeBlock(t: string, decode: LiteralDecoder): Option<seq<Option<string>>> {
    match BracketBlock(t)
    case None => None
    case Some(b) => decode(b)
  }

  /** The image an item contributes: its sanitised value, unless the item has none or it sanitises to the sentinel. */
  function KeepImage(item: Option<string>, otherSymbol: OtherSymbolTest): (r: Option<string>)
    ensures r.Some? ==> Clean(r.value, otherSymbol) && r.value != Sentinel
  {
    match item
    case None => None
    case Some(x) =>
      var img := SanitizeValue(Some(x), otherSymbol);
      if img == Sentinel then None else Some(img)
  }

  /** What each item contributes, item by item. */
  function KeepEach(items: seq<Option<string>>, otherSymbol: OtherSymbolTest): (r: seq<Option<string>>)
    ensures |r| == |items| && forall k :: 0 <= k < |items| ==> r[k] == KeepImage(items[k], otherSymbol)
  {
    seq(|items|, k requires 0 <= k < |items| => KeepImage(items[k], otherSymbol))
  }

  /** The images the loop over the decoded list appends, in order. */
  function KeptImages(items: seq<Option<string>>, otherSymbol: OtherSymbolTest): seq<string> {
    Somes(KeepEach(items, otherSymbol))
  }

  /** An image is kept exactly when some item contributes it. */
  lemma KeptImagesMembers(items: seq<Option<string>>, otherSymbol: OtherSymbolTest, x: string)
    ensures x in KeptImages(items, otherSymbol) <==>
      exists k :: 0 <= k < |items| && KeepImage(items[k], otherSymbol) == Some(x)
  {
    SomesMembers(KeepEach(items, otherSymbol), x);
  }

  /** Every kept image is clean and is not the sentinel. */
  lemma KeptImagesClean(items: seq<Option<string>>, otherSymbol: OtherSymbolTest)
    ensures forall x :: x in KeptImages(items, otherSymbol) ==> Clean(x, otherSymbol) && x != Sentinel
  {
    forall x | x in KeptImages(items, otherSymbol)
      ensures Clean(x, otherSymbol) && x != Sentinel
    {
      KeptImagesMembers(items, otherSymbol, x);
      var k :| 0 <= k < |items| && KeepImage(items[k], otherSymbol) == Some(x);
    }
  }

  /** Images that are already clean, and neither "no data" nor the sentinel, are all kept, unchanged and in order. */
  lemma KeptCleanImages(xs: seq<string>, otherSymbol: OtherSymbolTest)
    requires forall x :: x in xs ==> Clean(x, otherSymbol) && !IsNoData(x) && x != Sentinel
    ensures KeptImages(AllSome(xs), otherSymbol) == xs
  {
    forall k | 0 <= k < |xs| ensures KeepImage(Some(xs[k]), otherSymbol) == Some(xs[k]) {
      assert xs[k] in xs;
      SanitizeClean(xs[k], otherSymbol);
    }
    assert KeepEach(AllSome(xs), otherSymbol) == AllSome(xs);
    SomesAllSome(xs);
  }

  /** `"|".join(images) if images else "NA"`. */
  function JoinImages(xs: seq<string>): string {
    if xs == [] then Sentinel else Join(xs, '|')
  }

  /** Joining clean images gives clean text, and the sentinel only when there are none. */
  lemma {:induction false} JoinImagesClean(xs: seq<string>, otherSymbol: OtherSymbolTest)
    requires forall x :: x in xs ==> Clean(x, otherSymbol) && x != Sentinel
    ensures Clean(JoinImages(xs), otherSymbol)
    ensures JoinImages(xs) == Sentinel <==> xs == []
  {
    SentinelIsClean(otherSymbol);
    if |xs| > 1 {
      var rest := xs[1..];
      assert Clean(Join(rest, '|'), otherSymbol) && Join(rest, '|') != Sentinel by {
        assert forall x :: x in rest ==> x in xs;
        JoinImagesClean(rest, otherSymbol);
      }
      assert xs[0] in xs;
      assert Join(xs, '|') == xs[0] + ['|'] + Join(rest, '|');
      JoinedClean(xs[0], Join(rest, '|'), otherSymbol);
    }
  }

  /** Two clean texts joined by '|' give clean text other than the sentinel. */
  lemma JoinedClean(a: string, b: string, otherSymbol: OtherSymbolTest)
    requires Clean(a, otherSymbol) && Clean(b, otherSymbol)
    ensures Clean(a + ['|'] + b, otherSymbol) && a + ['|'] + b != Sentinel
  {
    var s := a + ['|'] + b;
    assert Collapsed(s) by {
      NoSpaceCollapsed(['|']);
      CollapsedConcat(a, ['|']);
      CollapsedConcat(a + ['|'], b);
    }
    assert NoEmoji(s, otherSymbol) by {
      LowCodePointsAreNotEmojiLike('|', otherSymbol);
      forall c | c in s ensures !IsEmojiLike(c, otherSymbol) {
        assert c in a || c == '|' || c in b;
      }
    }
    assert ',' !in s by {
      assert forall c :: c in s ==> c in a || c == '|' || c in b;
    }
    assert s[|a|] == '|' && s[0] == a[0] && s[|s| - 1] == b[|b| - 1];
  }

  /** The joined images split back on '|' into the images, when none of them holds a '|'. */
  lemma JoinImagesSplit(xs: seq<string>)
    requires xs != [] && forall x :: x in xs ==> '|' !in x
    ensures Split(JoinImages(xs), '|') == xs
  {
    SplitJoin(xs, '|');
  }


  /** The sentinel exactly when no image is kept; otherwise the kept images, once split on '|'. */
  predicate JoinsImages(r: string, kept: seq<string>) {
    && (r == Sentinel <==> kept == [])
    && (kept != [] && (forall x :: x in kept ==> '|' !in x) ==> Split(r, '|') == kept)
  }

  /** Joining kept images always has that relation to them. */
  lemma JoinImagesKept(items: seq<Option<string>>, otherSymbol: OtherSymbolTest)
    ensures JoinsImages(JoinImages(KeptImages(items, otherSymbol)), KeptImages(items, otherSymbol))
  {
    var kept := KeptImages(items, otherSymbol);
    KeptImagesClean(items, otherSymbol);
    JoinImagesClean(kept, otherSymbol);
    if kept != [] && (forall x :: x in kept ==> '|' !in x) {
      JoinImagesSplit(kept);
    }
  }

  /** A list item "b" followed by a thumbs-up sign (U+1F44D) contributes the image "b". */
  lemma KeepEmojiItem(otherSymbol: OtherSymbolTest)
    ensures KeepImage(Some("b\U{1F44D}"), otherSymbol) == Some("b")
  {
    SanitizeEmojiAtEnd(otherSymbol);
  }

  /** The items the images are read from: the decoded list, or else the images the scan finds. */
  function MediaItems(t: string, decode: LiteralDecoder): seq<Option<string>> {
    match DecodeBlock(t, decode)
    case Some(list) => list
    case None => AllSome(FindImages(t))
  }

  /**
   * `parse_story_pin_media`: the sentinel for `None` or "no data"; the kept images of the
   * decoded list when the bracketed block decodes to one; otherwise the kept images the
   * fallback scan finds in the prepared text.
   */
  function StoryPinMedia(v: Option<string>, otherSymbol: OtherSymbolTest, decode: LiteralDecoder): (r: string)
    ensures Clean(r, otherSymbol)
    ensures v.None? ==> r == Sentinel
    ensures v.Some? && IsNoData(Prepared(v.value, otherSymbol)) ==> r == Sentinel
    ensures v.Some? && !IsNoData(Prepared(v.value, otherSymbol)) ==>
      JoinsImages(r, KeptImages(MediaItems(Prepared(v.value, otherSymbol), decode), otherSymbol))
  {
    SentinelIsClean(otherSymbol);
    match v
    case None => Sentinel
    case Some(s) =>
      var t := Prepared(s, otherSymbol);
      if IsNoData(t) then Sentinel
      else
        var items := MediaItems(t, decode);
        KeptImagesClean(items, otherSymbol);
        JoinImagesClean(KeptImages(items, otherSymbol), otherSymbol);
        JoinImagesKept(items, otherSymbol);
        JoinImages(KeptImages(items, otherSymbol))
  }

  /** The loop over the decoded list: each item with an image is sanitised, and appended unless it is the sentinel. */
  method CollectImages(items: seq<Option<string>>, otherSymbol: OtherSymbolTest) returns (images: seq<string>)
    ensures images == KeptImages(items, otherSymbol)
  {
    images := [];
    var i := 0;
    while i < |items|
      invariant 0 <= i <= |items|
      invariant images == KeptImages(items[..i], otherSymbol)
    {
      KeptImagesStep(items, i, otherSymbol);
      var kept := KeepImage(items[i], otherSymbol);
      if kept.Some? {
        images := images + [kept.value];
      }
      i := i + 1;
    }
    assert items[..|items|] == items;
  }

  /** One more item adds its image, if it has one that is kept. */
  lemma KeptImagesStep(items: seq<Option<string>>, i: int, otherSymbol: OtherSymbolTest)
    requires 0 <= i < |items|
    ensures var kept := KeepImage(items[i], otherSymbol);
      KeptImages(items[..i + 1], otherSymbol) ==
        KeptImages(items[..i], otherSymbol) + if kept.Some? then [kept.value] else []
  {
    var kept := KeepImage(items[i], otherSymbol);
    assert KeepEach(items[..i + 1], otherSymbol) == KeepEach(items[..i], otherSymbol) + [kept];
    SomesAppend(KeepEach(items[..i], otherSymbol), kept);
  }

  /** `parse_story_pin_media` as the converter runs it, with the loop over the decoded list. */
  method ParseStoryPinMedia(v: Option<string>, otherSymbol: OtherSymbolTest, decode: LiteralDecoder) returns (r: string)
    ensures r == StoryPinMedia(v, otherSymbol, decode)
  {
    if v.None? {
      return Sentinel;
    }
    var t := Prepared(v.value, otherSymbol);
    if IsNoData(t) {
      return Sentinel;
    }
    var block := BracketBlock(t);
    if block.Some? {
      var data := decode(block.value);
      if data.Some? {
        var images := CollectImages(data.value, otherSymbol);
        return JoinImages(images);
      }
    }
    var found := FindImages(t);
    return JoinImages(KeptImages(AllSome(found), otherSymbol));
  }

  /** A padded spelling of "no data", with trailing commas, has no media. */
  lemma StoryPinMediaNoData(lead: string, w: string, tail: string, otherSymbol: OtherSymbolTest, decode: LiteralDecoder)
    requires AllSpace(lead) && IsNoData(w)
    requires forall c :: c in tail ==> IsCommaOrSpace(c)
    ensures StoryPinMedia(Some(lead + w + tail), otherSymbol, decode) == Sentinel
  {
    NoDataShape(w, otherSymbol);
    PaddedPrepass(lead, w, tail, otherSymbol);
  }

  // ---- a written list reads back the same on both paths ----

  /** The image conditions the end-to-end property needs: clean, kept, and free of the quote and the separator. */
  ghost predicate PlainImage(x: string, otherSymbol: OtherSymbolTest) {
    Clean(x, otherSymbol) && !IsNoData(x) && x != Sentinel && '\'' !in x && '|' !in x
  }

  /** The text of one entry has no emoji, is collapsed, and is enclosed in braces. */
  lemma EntryShape(x: string, otherSymbol: OtherSymbolTest)
    requires Clean(x, otherSymbol)
    ensures var e := ImageEntry(x);
      NoEmoji(e, otherSymbol) && Collapsed(e) && e[0] == '{' && e[|e| - 1] == '}'
  {
    EntryNoEmoji(x, otherSymbol);
    EntryCollapsed(x, otherSymbol);
  }

  lemma EntryNoEmoji(x: string, otherSymbol: OtherSymbolTest)
    requires Clean(x, otherSymbol)
    ensures NoEmoji(ImageEntry(x), otherSymbol)
  {
    var head := ['{'] + ImageKey + [' ', '\''];
    var close := ['\'', '}'];
    LowTextHasNoEmoji(head, otherSymbol);
    LowTextHasNoEmoji(close, otherSymbol);
    NoEmojiConcat(head, x, otherSymbol);
    NoEmojiConcat(head + x, close, otherSymbol);
  }

  lemma EntryCollapsed(x: string, otherSymbol: OtherSymbolTest)
    requires Clean(x, otherSymbol)
    ensures Collapsed(ImageEntry(x))
  {
    var head := ['{'] + ImageKey;
    var t1 := x + ['\'', '}'];
    var t2 := ['\''] + t1;
    var t3 := [' '] + t2;
    assert Collapsed(t1) by {
      NoSpaceCollapsed(['\'', '}']);
      CollapsedConcat(x, ['\'', '}']);
    }
    assert Collapsed(t2) by {
      NoSpaceCollapsed(['\'']);
      CollapsedConcat(['\''], t1);
    }
    assert Collapsed(t3) by {
      CollapsedAfterSpace(t2);
    }
    assert Collapsed(head + t3) by {
      NoSpaceCollapsed(head);
      assert head[|head| - 1] == ':';
      CollapsedConcat(head, t3);
    }
    EntryParts(x);
  }

  /** The entry for `x`, cut where the proof of its shape needs it. */
  lemma EntryParts(x: string)
    ensures ImageEntry(x) == (['{'] + ImageKey) + ([' '] + (['\''] + (x + ['\'', '}'])))
  {
  }

  /** The text of the entries has no emoji, is collapsed, and is enclosed in braces. */
  lemma {:induction false} EntriesShape(xs: seq<string>, otherSymbol: OtherSymbolTest)
    requires xs != [] && forall x :: x in xs ==> Clean(x, otherSymbol)
    ensures var e := Entries(xs);
      NoEmoji(e, otherSymbol) && Collapsed(e) && e[0] == '{' && e[|e| - 1] == '}'
  {
    var x := xs[0];
    assert x in xs;
    EntryShape(x, otherSymbol);
    if |xs| > 1 {
      var rest := xs[1..];
      assert forall y :: y in rest ==> y in xs;
      EntriesShape(rest, otherSymbol);
      SeparatedShape(ImageEntry(x), Entries(rest), otherSymbol);
    }
  }

  /** Two entry texts separated by ", " keep the shape. */
  lemma SeparatedShape(a: string, e: string, otherSymbol: OtherSymbolTest)
    requires NoEmoji(a, otherSymbol) && Collapsed(a) && a != [] && a[|a| - 1] == '}'
    requires NoEmoji(e, otherSymbol) && Collapsed(e) && e != [] && e[0] == '{'
    ensures NoEmoji(a + ", " + e, otherSymbol) && Collapsed(a + ", " + e)
  {
    SeparatedCollapsed(a, e);
    LowTextHasNoEmoji(", ", otherSymbol);
    NoEmojiConcat(a, ", ", otherSymbol);
    NoEmojiConcat(a + ", ", e, otherSymbol);
  }

  lemma SeparatedCollapsed(a: string, e: string)
    requires Collapsed(a) && a != [] && a[|a| - 1] == '}'
    requires Collapsed(e) && e != [] && e[0] == '{'
    ensures Collapsed(a + ", " + e)
  {
    var t1 := [' '] + e;
    var t2 := [','] + t1;
    assert Collapsed(t1) by {
      CollapsedAfterSpace(e);
    }
    assert Collapsed(t2) by {
      NoSpaceCollapsed([',']);
      CollapsedConcat([','], t1);
    }
    assert Collapsed(a + t2) by {
      CollapsedConcat(a, t2);
    }
    SeparatedParts(a, e);
  }

  /** Two texts joined by ", ", cut where the proof of their shape needs it. */
  lemma SeparatedParts(a: string, e: string)
    ensures a + ", " + e == a + ([','] + ([' '] + e))
  {
  }

  /** A written list is already in the form the preparation produces, and is not "no data". */
  lemma ListingPrepared(xs: seq<string>, otherSymbol: OtherSymbolTest)
    requires xs != [] && forall x :: x in xs ==> Clean(x, otherSymbol)
    ensures Prepared(Listing(xs), otherSymbol) == Listing(xs)
    ensures !IsNoData(Listing(xs))
  {
    var e := Entries(xs);
    var l := Listing(xs);
    EntriesShape(xs, otherSymbol);
    LowTextHasNoEmoji("[", otherSymbol);
    LowTextHasNoEmoji("]", otherSymbol);
    NoEmojiConcat("[", e, otherSymbol);
    NoEmojiConcat("[" + e, "]", otherSymbol);
    NoSpaceCollapsed("[");
    NoSpaceCollapsed("]");
    CollapsedConcat(e, "]");
    CollapsedConcat("[", e + "]");
    assert l == "[" + (e + "]");
    assert l[0] == '[' && l[|l| - 1] == ']';
    StripTrailingCommasKeeps(l);
    if IsNoData(l) {
      NoDataShape(l, otherSymbol);
    }
  }

  /**
   * A list of images written as Python writes it reads back as the same images, joined by
   * '|', whether the decoder turns it into that list or fails and the scan takes over.
   */
  lemma StoryPinMediaListing(xs: seq<string>, otherSymbol: OtherSymbolTest, decode: LiteralDecoder)
    requires xs != [] && forall x :: x in xs ==> PlainImage(x, otherSymbol)
    requires decode(Listing(xs)) == Some(AllSome(xs)) || decode(Listing(xs)).None?
    ensures Split(StoryPinMedia(Some(Listing(xs)), otherSymbol, decode), '|') == xs
  {
    var l := Listing(xs);
    assert JoinsImages(StoryPinMedia(Some(l), otherSymbol, decode), xs) by {
      ListingItems(xs, otherSymbol, decode);
      MediaOfItems(l, otherSymbol, decode);
    }
    assert forall x :: x in xs ==> '|' !in x by {
      forall x | x in xs ensures '|' !in x {
        assert PlainImage(x, otherSymbol);
      }
    }
    JoinsImagesSplit(StoryPinMedia(Some(l), otherSymbol, decode), xs);
  }

  /** Text that prepares to itself and is not "no data" has as media the join of its kept items. */
  lemma MediaOfItems(t: string, otherSymbol: OtherSymbolTest, decode: LiteralDecoder)
    requires Prepared(t, otherSymbol) == t && !IsNoData(t)
    ensures JoinsImages(StoryPinMedia(Some(t), otherSymbol, decode), KeptImages(MediaItems(t, decode), otherSymbol))
  {
  }

  lemma JoinsImagesSplit(r: string, xs: seq<string>)
    requires JoinsImages(r, xs) && xs != [] && forall x :: x in xs ==> '|' !in x
    ensures Split(r, '|') == xs
  {
  }

  /** A written list of plain images is prepared already, is not "no data", and its kept items are those images. */
  lemma ListingItems(xs: seq<string>, otherSymbol: OtherSymbolTest, decode: LiteralDecoder)
    requires xs != [] && forall x :: x in xs ==> PlainImage(x, otherSymbol)
    requires decode(Listing(xs)) == Some(AllSome(xs)) || decode(Listing(xs)).None?
    ensures Prepared(Listing(xs), otherSymbol) == Listing(xs) && !IsNoData(Listing(xs))
    ensures KeptImages(MediaItems(Listing(xs), decode), otherSymbol) == xs
  {
    var l := Listing(xs);
    assert Prepared(l, otherSymbol) == l && !IsNoData(l) by {
      assert forall x :: x in xs ==> Clean(x, otherSymbol);
      ListingPrepared(xs, otherSymbol);
    }
    assert MediaItems(l, decode) == AllSome(xs) by {
      ListingBlock(xs);
      FindImagesListing(xs);
    }
    assert KeptImages(AllSome(xs), otherSymbol) == xs by {
      KeptCleanImages(xs, otherSymbol);
    }
  }

  /** A written list is its own bracketed block. */
  lemma ListingBlock(xs: seq<string>)
    ensures BracketBlock(Listing(xs)) == Some(Listing(xs))
  {
    BracketBlockGreedy([], Entries(xs), []);
    assert Listing(xs) == [] + ['['] + Entries(xs) + [']'] + [];
  }
}
