/**
 * The emoji heuristic of `is_emoji_char`: a character is "emoji-like" when it is the
 * zero-width joiner or a variation selector, a skin-tone modifier, inside one of eight
 * fixed Unicode blocks, or a high-plane character in the Unicode category "So".
 */
module Emoji {
  import opened Text

  /**
   * Python's `unicodedata.category(ch) == "So"`. The Unicode character database is not
   * part of this model, so every member that needs it takes the test as a parameter.
   */
  type OtherSymbolTest = char -> bool

  /** The blocks searched by the loop of `is_emoji_char`, as inclusive code-point ranges. */
  const EmojiBlocks: seq<(int, int)> := [
    (0x1F600, 0x1F64F),  // emoticons
    (0x1F300, 0x1F5FF),  // miscellaneous symbols and pictographs
    (0x1F680, 0x1F6FF),  // transport and map symbols
    (0x1F900, 0x1F9FF),  // supplemental symbols and pictographs
    (0x1FA00, 0x1FAFF),  // symbols and pictographs extended-A
    (0x1F1E6, 0x1F1FF),  // regional indicator symbols
    (0x2600, 0x26FF),    // miscellaneous symbols
    (0x2700, 0x27BF)     // dingbats
  ]

  /** Whether `cp` lies in one of `blocks`, searched front to back. */
  function InSomeBlock(cp: int, blocks: seq<(int, int)>): (b: bool)
    ensures b <==> exists k :: 0 <= k < |blocks| && blocks[k].0 <= cp <= blocks[k].1
  {
    if blocks == [] then false
    else if blocks[0].0 <= cp <= blocks[0].1 then true
    else
      var b := InSomeBlock(cp, blocks[1..]);
      assert b ==> exists k :: 0 <= k < |blocks| && blocks[k].0 <= cp <= blocks[k].1 by {
        if b {
          var k :| 0 <= k < |blocks| - 1 && blocks[1..][k].0 <= cp <= blocks[1..][k].1;
          assert blocks[k + 1] == blocks[1..][k];
        }
      }
      assert (exists k :: 0 <= k < |blocks| && blocks[k].0 <= cp <= blocks[k].1) ==> b by {
        forall k | 0 <= k < |blocks| && blocks[k].0 <= cp <= blocks[k].1
          ensures b
        {
          assert k != 0;
          assert blocks[1..][k - 1] == blocks[k];
        }
      }
      b
  }

  /** `is_emoji_char` on one character. */
  predicate IsEmojiLike(c: char, otherSymbol: OtherSymbolTest) {
    var cp := c as int;
    || cp == 0x200D || cp == 0xFE0E || cp == 0xFE0F
    || (0x1F3FB <= cp <= 0x1F3FF)
    || InSomeBlock(cp, EmojiBlocks)
    || (otherSymbol(c) && cp >= 0x1F000)
  }

  /**
   * `is_emoji_char` on its string argument, which the converter always gives one character;
   * Python's `ord` rejects a longer string, hence the precondition.
   */
  function IsEmojiChar(ch: string, otherSymbol: OtherSymbolTest): (b: bool)
    requires |ch| <= 1
    ensures ch == "" ==> !b
    ensures |ch| == 1 ==> (b <==> IsEmojiLike(ch[0], otherSymbol))
  {
    if ch == "" then false else IsEmojiLike(ch[0], otherSymbol)
  }

  /** The joiner, both variation selectors and every skin-tone modifier are emoji-like, whatever the category test says. */
  lemma ModifiersAreEmojiLike(c: char, otherSymbol: OtherSymbolTest)
    requires c as int in {0x200D, 0xFE0E, 0xFE0F} || 0x1F3FB <= c as int <= 0x1F3FF
    ensures IsEmojiLike(c, otherSymbol)
  {
  }

  /** Every code point of every listed block is emoji-like, whatever the category test says. */
  lemma {:induction false} BlocksAreEmojiLike(c: char, k: int, otherSymbol: OtherSymbolTest)
    requires 0 <= k < |EmojiBlocks| && EmojiBlocks[k].0 <= c as int <= EmojiBlocks[k].1
    ensures IsEmojiLike(c, otherSymbol)
  {
    assert InSomeBlock(c as int, EmojiBlocks);
  }

  /**
   * Below U+2600 only the zero-width joiner is emoji-like: commas, letters, digits and
   * the whitespace characters there are not, whatever the category test says.
   */
  lemma LowCodePointsAreNotEmojiLike(c: char, otherSymbol: OtherSymbolTest)
    requires c as int < 0x2600 && c as int != 0x200D
    ensures !IsEmojiLike(c, otherSymbol)
  {
    assert !InSomeBlock(c as int, EmojiBlocks);
  }

  /** No whitespace character is emoji-like (U+3000, the only one above U+2600, lies outside every block). */
  lemma SpacesAreNotEmojiLike(c: char, otherSymbol: OtherSymbolTest)
    requires IsSpace(c)
    ensures !IsEmojiLike(c, otherSymbol)
  {
    assert !InSomeBlock(c as int, EmojiBlocks);
  }

  /** The category fallback only reaches code points from U+1F000 on. */
  lemma FallbackOnlyAboveU1F000(c: char, so1: OtherSymbolTest, so2: OtherSymbolTest)
    requires c as int < 0x1F000
    ensures IsEmojiLike(c, so1) == IsEmojiLike(c, so2)
  {
  }
}
