/**
 * The fallback of `parse_story_pin_media`: a regular-expression scan for `'image': '...'`
 * pairs, used when the bracketed block does not decode to a list.
 */
module ImageScan {
  import opened Wrappers
  import opened Text

  const ImageKey: string := "'image':"

  /**
   * One match of `\s*'([^']+)'` at the start of `u`: the captured image, the non-empty run
   * up to the next quote, and the length of the whole match.
   */
  function QuotedImage(u: string): (r: Option<(string, nat)>)
    ensures r.Some? ==> r.value.0 != [] && '\'' !in r.value.0 && 0 < r.value.1 <= |u|
  {
    if u == [] then None
    else if IsSpace(u[0]) then
      var m := QuotedImage(u[1..]);
      if m.None? then None else Some((m.value.0, m.value.1 + 1))
    else if u[0] != '\'' then None
    else
      match FirstIndex(u[1..], '\'')
      case None => None
      case Some(k) => if k == 0 then None else Some((u[1..][..k], k + 2))
  }

  /** One match of `'image':\s*'([^']+)'` at the start of `s`: the captured image and the length of the match. */
  function MatchImageAt(s: string): (r: Option<(string, nat)>)
    ensures r.Some? ==> StartsWith(s, ImageKey) && r.value.0 != [] && '\'' !in r.value.0 && 0 < r.value.1 <= |s|
  {
    if !StartsWith(s, ImageKey) then None
    else
      match QuotedImage(s[|ImageKey|..])
      case None => None
      case Some((img, n)) => Some((img, |ImageKey| + n))
  }

  /** `re.findall(r"'image':\s*'([^']+)'", s)`: the image of every match, scanning left to right. */
  function FindImages(s: string): (r: seq<string>)
    ensures forall x :: x in r ==> x != [] && '\'' !in x
    decreases |s|
  {
    if s == [] then []
    else
      match MatchImageAt(s)
      case Some((img, n)) => [img] + FindImages(s[n..])
      case None => FindImages(s[1..])
  }

  /** Text without a quote holds no match, so the scan passes over it. */
  lemma {:induction false} FindImagesSkip(p: string, s: string)
    requires '\'' !in p
    ensures FindImages(p + s) == FindImages(s)
  {
    if p != [] {
      var t := p + s;
      assert t[0] == p[0] && p[0] != '\'';
      assert !StartsWith(t, ImageKey);
      assert MatchImageAt(t) == None;
      assert FindImages(t) == FindImages(t[1..]);
      assert t[1..] == p[1..] + s;
      FindImagesSkip(p[1..], s);
    } else {
      assert p + s == s;
    }
  }

  /** A quoted image is captured whole. */
  lemma QuotedImageOf(x: string, rest: string)
    requires x != [] && '\'' !in x
    ensures QuotedImage(['\''] + x + ['\''] + rest) == Some((x, |x| + 2))
  {
    var u := ['\''] + x + ['\''] + rest;
    assert u[1..] == x + ['\''] + rest;
    assert (x + ['\''] + rest)[..|x|] == x;
    FirstIndexAt(u[1..], '\'', |x|);
    assert u[1..][..|x|] == x;
  }

  /** Whitespace before the opening quote is part of the match. */
  lemma QuotedImageAfterSpace(c: char, u: string)
    requires IsSpace(c) && QuotedImage(u).Some?
    ensures QuotedImage([c] + u) == Some((QuotedImage(u).value.0, QuotedImage(u).value.1 + 1))
  {
    var s := [c] + u;
    assert s != [] && s[0] == c && s[1..] == u;
    QuotedImageSkipsSpace(s);
  }

  /** Whitespace first: the match of the rest, one longer. */
  lemma QuotedImageSkipsSpace(s: string)
    requires s != [] && IsSpace(s[0]) && QuotedImage(s[1..]).Some?
    ensures QuotedImage(s) == Some((QuotedImage(s[1..]).value.0, QuotedImage(s[1..]).value.1 + 1))
  {
  }

  /** After the key, a match is whatever the quoted part matches. */
  lemma MatchImageAfterKey(u: string)
    requires QuotedImage(u).Some?
    ensures MatchImageAt(ImageKey + u) == Some((QuotedImage(u).value.0, |ImageKey| + QuotedImage(u).value.1))
  {
    assert (ImageKey + u)[..|ImageKey|] == ImageKey;
    assert (ImageKey + u)[|ImageKey|..] == u;
  }

  /** A key, a space and a quoted image are one match, and the scan resumes right after it. */
  lemma FindImagesEntry(x: string, rest: string)
    requires x != [] && '\'' !in x
    ensures FindImages(ImageKey + [' ', '\''] + x + ['\''] + rest) == [x] + FindImages(rest)
  {
    var u := ['\''] + x + ['\''] + rest;
    var s := ImageKey + ([' '] + u);
    assert s == ImageKey + [' ', '\''] + x + ['\''] + rest;
    QuotedImageOf(x, rest);
    QuotedImageAfterSpace(' ', u);
    MatchImageAfterKey([' '] + u);
    assert s[|ImageKey| + |x| + 3..] == rest;
  }

  /** A dictionary entry `{'image': 'x'}` as Python writes it. */
  function ImageEntry(x: string): string {
    ['{'] + ImageKey + [' ', '\''] + x + ['\'', '}']
  }

  /** The entries of a list of image dictionaries, separated by ", ". */
  function Entries(xs: seq<string>): string {
    if xs == [] then ""
    else if |xs| == 1 then ImageEntry(xs[0])
    else ImageEntry(xs[0]) + ", " + Entries(xs[1..])
  }

  /** A list of image dictionaries as Python writes it, `[{'image': 'a'}, {'image': 'b'}]`. */
  function Listing(xs: seq<string>): string {
    "[" + Entries(xs) + "]"
  }

  /** The scan finds the image of one dictionary entry and goes on after it. */
  lemma FindImagesImageEntry(x: string, q: string)
    requires x != [] && '\'' !in x
    ensures FindImages(ImageEntry(x) + q) == [x] + FindImages(q)
  {
    var after := ['}'] + q;
    var inner := ImageKey + [' ', '\''] + x + ['\''] + after;
    assert FindImages(ImageEntry(x) + q) == FindImages(inner) by {
      ImageEntryParts(x, q);
      FindImagesSkip(['{'], inner);
    }
    FindImagesEntry(x, after);
    FindImagesSkip(['}'], q);
  }

  lemma ImageEntryParts(x: string, q: string)
    ensures ImageEntry(x) + q == ['{'] + (ImageKey + [' ', '\''] + x + ['\''] + (['}'] + q))
  {
  }

  /** The scan finds the images of the entries in order and goes on after them. */
  lemma {:induction false} FindImagesEntries(xs: seq<string>, q: string)
    requires forall x :: x in xs ==> x != [] && '\'' !in x
    ensures FindImages(Entries(xs) + q) == xs + FindImages(q)
  {
    assert xs != [] ==> xs[0] in xs;
    if xs == [] {
      assert Entries(xs) + q == q;
    } else if |xs| == 1 {
      FindImagesImageEntry(xs[0], q);
      assert xs == [xs[0]];
    } else {
      var rest := xs[1..];
      assert forall y :: y in rest ==> y in xs;
      FindImagesEntries(rest, q);
      EntriesCons(xs, q);
      FindImagesAfterEntry(xs[0], Entries(rest) + q, rest + FindImages(q));
      SeqConsAppend(xs[0], rest, FindImages(q));
      assert xs == [xs[0]] + rest;
    }
  }

  /** An entry and a separator in front of text the scan reads as `found`. */
  lemma FindImagesAfterEntry(x: string, tail: string, found: seq<string>)
    requires x != [] && '\'' !in x
    requires FindImages(tail) == found
    ensures FindImages(ImageEntry(x) + (", " + tail)) == [x] + found
  {
    FindImagesImageEntry(x, ", " + tail);
    FindImagesSkip(", ", tail);
  }

  lemma SeqConsAppend<T>(x: T, p: seq<T>, q: seq<T>)
    ensures [x] + (p + q) == ([x] + p) + q
  {
  }

  /** Entries of two or more images: the first entry, a separator, and the rest. */
  lemma EntriesCons(xs: seq<string>, q: string)
    requires |xs| > 1
    ensures Entries(xs) + q == ImageEntry(xs[0]) + (", " + (Entries(xs[1..]) + q))
  {
    var e, r := ImageEntry(xs[0]), Entries(xs[1..]);
    assert Entries(xs) == e + ", " + r;
    JoinThree(e, ", ", r, q);
  }

  lemma JoinThree<T>(a: seq<T>, b: seq<T>, c: seq<T>, d: seq<T>)
    ensures a + b + c + d == a + (b + (c + d))
  {
  }

  /** The fallback scan reads back every image of a written list, in order. */
  lemma FindImagesListing(xs: seq<string>)
    requires forall x :: x in xs ==> x != [] && '\'' !in x
    ensures FindImages(Listing(xs)) == xs
  {
    FindImagesSkip("[", Entries(xs) + "]");
    assert Listing(xs) == "[" + (Entries(xs) + "]");
    FindImagesEntries(xs, "]");
    FindImagesSkip("]", "");
    assert "]" + "" == "]";
  }
}
