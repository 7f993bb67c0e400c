/**
 * The few Python string and regular-expression primitives the converter relies on:
 * the whitespace class, `str.strip`, `re.sub(r"\s+", " ", s)`, `str.lower` (for the
 * comparisons the converter makes), prefix tests, character search, splitting and joining.
 */
module Text {
  import opened Wrappers

  /**
   * Python's `str.isspace()`: the characters that both `\s` (in a regular expression
   * over `str`) and `str.strip()` treat as whitespace.
   */
  predicate IsSpace(c: char) {
    var cp := c as int;
    (0x09 <= cp <= 0x0D) || (0x1C <= cp <= 0x20) || cp == 0x85 || cp == 0xA0 || cp == 0x1680
    || (0x2000 <= cp <= 0x200A) || cp == 0x2028 || cp == 0x2029 || cp == 0x202F
    || cp == 0x205F || cp == 0x3000
  }

  /** Neither end of `s` is whitespace. */
  predicate NoEdgeSpace(s: string) {
    s == [] || (!IsSpace(s[0]) && !IsSpace(s[|s| - 1]))
  }

  /** Every whitespace character is a plain space, and no two whitespace characters are adjacent. */
  predicate Collapsed(s: string) {
    s == [] ||
    (&& (IsSpace(s[0]) ==> s[0] == ' ' && (|s| > 1 ==> !IsSpace(s[1])))
     && Collapsed(s[1..]))
  }

  /** `Collapsed`, stated position by position. */
  lemma {:induction false} CollapsedAt(s: string, i: int)
    requires Collapsed(s) && 0 <= i < |s| && IsSpace(s[i])
    ensures s[i] == ' ' && (i + 1 < |s| ==> !IsSpace(s[i + 1]))
  {
    if i > 0 {
      CollapsedAt(s[1..], i - 1);
    }
  }

  predicate AllSpace(s: string) {
    forall i {:trigger IsSpace(s[i])} :: 0 <= i < |s| ==> IsSpace(s[i])
  }

  lemma {:induction false} CollapsedSlice(s: string, lo: int, hi: int)
    requires 0 <= lo <= hi <= |s|
    requires Collapsed(s)
    ensures Collapsed(s[lo..hi])
  {
    CollapsedPrefix(s, hi);
    CollapsedSuffix(s[..hi], lo);
    assert s[..hi][lo..] == s[lo..hi];
  }

  lemma {:induction false} CollapsedPrefix(s: string, k: int)
    requires 0 <= k <= |s| && Collapsed(s)
    ensures Collapsed(s[..k])
  {
    if k > 0 {
      CollapsedPrefix(s[1..], k - 1);
      assert s[..k][1..] == s[1..][..k - 1];
    }
  }

  lemma {:induction false} CollapsedSuffix(s: string, k: int)
    requires 0 <= k <= |s| && Collapsed(s)
    ensures Collapsed(s[k..])
  {
    if k > 0 {
      CollapsedSuffix(s[1..], k - 1);
      assert s[1..][k - 1..] == s[k..];
    }
  }

  /** Inserting a character that is not whitespace into collapsed text keeps it collapsed. */
  lemma {:induction false} CollapsedInsert(a: string, c: char, b: string)
    requires Collapsed(a + b) && !IsSpace(c)
    ensures Collapsed(a + [c] + b)
    decreases |a|
  {
    var x := a + [c] + b;
    if a == [] {
      assert x == [c] + b && x[1..] == b && a + b == b;
    } else {
      assert (a + b)[1..] == a[1..] + b;
      CollapsedInsert(a[1..], c, b);
      assert x[1..] == a[1..] + [c] + b;
      assert x[0] == (a + b)[0];
      if |a| > 1 {
        assert x[1] == (a + b)[1];
      } else {
        assert x[1] == c;
      }
    }
  }

  /** Two collapsed texts joined after a character that is not whitespace stay collapsed. */
  lemma {:induction false} CollapsedConcat(a: string, b: string)
    requires Collapsed(a) && Collapsed(b)
    requires a == [] || !IsSpace(a[|a| - 1])
    ensures Collapsed(a + b)
    decreases |a|
  {
    if a == [] {
      assert a + b == b;
    } else {
      assert (a + b)[1..] == a[1..] + b;
      assert (a + b)[0] == a[0];
      CollapsedConcat(a[1..], b);
      if |a| > 1 {
        assert (a + b)[1] == a[1];
      }
    }
  }

  /** One space before collapsed text that does not start with whitespace keeps it collapsed. */
  lemma CollapsedAfterSpace(u: string)
    requires Collapsed(u) && u != [] && !IsSpace(u[0])
    ensures Collapsed([' '] + u)
  {
    assert ([' '] + u)[1..] == u;
  }

  /** Text without whitespace is collapsed. */
  lemma {:induction false} NoSpaceCollapsed(s: string)
    requires forall c :: c in s ==> !IsSpace(c)
    ensures Collapsed(s)
  {
    if s != [] {
      assert s[0] in s;
      assert forall c :: c in s[1..] ==> c in s;
      NoSpaceCollapsed(s[1..]);
    }
  }

  /** Drops the leading whitespace of `s`. */
  function TrimLeft(s: string): (r: string)
    ensures |r| <= |s| && r == s[|s| - |r|..]
    ensures r == [] || !IsSpace(r[0])
    ensures forall i {:trigger IsSpace(s[i])} :: 0 <= i < |s| - |r| ==> IsSpace(s[i])
  {
    if s != [] && IsSpace(s[0]) then TrimLeft(s[1..]) else s
  }

  /** Drops the trailing whitespace of `s`. */
  function TrimRight(s: string): (r: string)
    ensures |r| <= |s| && r == s[..|r|]
    ensures r == [] || !IsSpace(r[|r| - 1])
    ensures forall i {:trigger IsSpace(s[i])} :: |r| <= i < |s| ==> IsSpace(s[i])
  {
    if s != [] && IsSpace(s[|s| - 1]) then TrimRight(s[..|s| - 1]) else s
  }

  /** Python's `str.strip()`. */
  function Strip(s: string): (r: string)
    ensures NoEdgeSpace(r)
    ensures forall c :: c in r ==> c in s
    ensures NoEdgeSpace(s) ==> r == s
  {
    StripEdges(s);
    StripChars(s);
    StripUntouched(s);
    TrimRight(TrimLeft(s))
  }

  /** Trimming both ends leaves the characters of `s` between its edge whitespace, in place. */
  lemma StripIsSlice(s: string)
    ensures var l := TrimLeft(s);
      var r := TrimRight(l);
      && |r| <= |l| <= |s|
      && forall i :: 0 <= i < |r| ==> r[i] == s[|s| - |l| + i]
  {
  }

  /** Trimming both ends leaves no whitespace at either end. */
  lemma StripEdges(s: string)
    ensures NoEdgeSpace(TrimRight(TrimLeft(s)))
  {
    var l := TrimLeft(s);
    var r := TrimRight(l);
    assert r != [] ==> r[0] == l[0];
  }

  /** Trimming both ends introduces no character. */
  lemma StripChars(s: string)
    ensures forall c :: c in TrimRight(TrimLeft(s)) ==> c in s
  {
    var r := TrimRight(TrimLeft(s));
    var lo := |s| - |TrimLeft(s)|;
    StripIsSlice(s);
    forall c | c in r ensures c in s {
      var i :| 0 <= i < |r| && r[i] == c;
      assert s[lo + i] == c;
    }
  }

  /** Text with no whitespace at either end is left as it is. */
  lemma StripUntouched(s: string)
    ensures NoEdgeSpace(s) ==> TrimRight(TrimLeft(s)) == s
  {
    if NoEdgeSpace(s) && s != [] {
      assert TrimLeft(s) == s;
      assert TrimRight(s) == s;
    }
  }

  /** Stripping collapsed text leaves collapsed text. */
  lemma StripCollapsed(s: string)
    requires Collapsed(s)
    ensures Collapsed(Strip(s))
  {
    var l := TrimLeft(s);
    CollapsedSuffix(s, |s| - |l|);
    CollapsedPrefix(l, |TrimRight(l)|);
  }

  /** Stripping leaves nothing exactly when `s` is all whitespace. */
  lemma StripEmpty(s: string)
    ensures Strip(s) == [] <==> AllSpace(s)
  {
    var l := TrimLeft(s);
    assert TrimRight(l) == [] ==> l == [];
    assert TrimRight(l) != [] ==> l != [] && l[0] == s[|s| - |l|];
  }

  /** Stripping text that starts with a character other than whitespace keeps that character first. */
  lemma StripKeepsFirst(s: string)
    requires s != [] && !IsSpace(s[0])
    ensures Strip(s) != [] && Strip(s)[0] == s[0]
  {
    assert TrimLeft(s) == s;
    assert TrimRight(s) != [];
  }

  /** A whitespace-only prefix followed by `t` strips to `t` when `t` has no whitespace at its ends. */
  lemma StripPadded(lead: string, t: string, trail: string)
    requires AllSpace(lead) && AllSpace(trail)
    requires t != [] && NoEdgeSpace(t)
    ensures Strip(lead + t + trail) == t
  {
    var s := lead + t + trail;
    assert TrimLeft(s) == t + trail by {
      assert s == lead + (t + trail);
      TrimLeftPadded(lead, t + trail);
    }
    TrimRightPadded(t, trail);
  }

  /** Whitespace before text that starts with a character other than whitespace is trimmed away. */
  lemma TrimLeftPadded(lead: string, l: string)
    requires AllSpace(lead) && l != [] && !IsSpace(l[0])
    ensures TrimLeft(lead + l) == l
  {
    var s := lead + l;
    assert s[|lead|..] == l;
    assert forall i {:trigger IsSpace(s[i])} :: 0 <= i < |lead| ==> IsSpace(s[i]) by {
      forall i | 0 <= i < |lead| ensures IsSpace(s[i]) {
        assert s[i] == lead[i];
      }
    }
    TrimLeftPrefix(s, |lead|);
  }

  /** Whitespace after text that ends in a character other than whitespace is trimmed away. */
  lemma TrimRightPadded(t: string, trail: string)
    requires AllSpace(trail) && t != [] && !IsSpace(t[|t| - 1])
    ensures TrimRight(t + trail) == t
  {
    var l := t + trail;
    assert forall i {:trigger IsSpace(l[i])} :: |l| - |trail| <= i < |l| ==> IsSpace(l[i]) by {
      forall i | |l| - |trail| <= i < |l| ensures IsSpace(l[i]) {
        assert l[i] == trail[i - |t|];
      }
    }
    TrimRightSuffix(l, |trail|);
    assert l[..|l| - |trail|] == t;
  }

  /** Python's `re.sub(r"\s+", " ", s)`: every maximal run of whitespace becomes one space. */
  function Collapse(s: string): string
    decreases |s|
  {
    if s == [] then []
    else if IsSpace(s[0]) then [' '] + Collapse(TrimLeft(s))
    else [s[0]] + Collapse(s[1..])
  }

  /** Collapsing text that starts with a character other than whitespace keeps that character first. */
  lemma CollapseKeepsFirst(s: string)
    requires s != [] && !IsSpace(s[0])
    ensures Collapse(s) != [] && Collapse(s)[0] == s[0]
  {
  }

  /**
   * What `Collapse` produces: collapsed text, empty only for empty input, and
   * starting and ending in whitespace exactly when its input does.
   */
  lemma {:induction false} CollapseShape(s: string)
    ensures Collapsed(Collapse(s))
    ensures Collapse(s) == [] <==> s == []
    ensures Collapse(s) != [] ==> (IsSpace(Collapse(s)[0]) <==> IsSpace(s[0]))
    ensures Collapse(s) != [] ==> (IsSpace(Collapse(s)[|Collapse(s)| - 1]) <==> IsSpace(s[|s| - 1]))
    decreases |s|
  {
    if s != [] {
      if IsSpace(s[0]) {
        var t := TrimLeft(s);
        CollapseShape(t);
        assert t != [] ==> t[|t| - 1] == s[|s| - 1];
        assert Collapse(s) == [' '] + Collapse(t);
      } else {
        CollapseShape(s[1..]);
        assert Collapse(s) == [s[0]] + Collapse(s[1..]);
      }
    }
  }

  /** `Collapse` introduces no character other than a space. */
  lemma {:induction false} CollapseChars(s: string)
    ensures forall c :: c in Collapse(s) ==> c == ' ' || c in s
    decreases |s|
  {
    if s != [] {
      if IsSpace(s[0]) {
        var t := TrimLeft(s);
        CollapseChars(t);
        assert forall c :: c in t ==> c in s by {
          forall c | c in t ensures c in s {
            var i :| 0 <= i < |t| && t[i] == c;
            assert s[|s| - |t| + i] == c;
          }
        }
      } else {
        CollapseChars(s[1..]);
      }
    }
  }

  /** On text that is already collapsed, `Collapse` changes nothing. */
  lemma {:induction false} CollapseCollapsed(s: string)
    requires Collapsed(s)
    ensures Collapse(s) == s
    decreases |s|
  {
    if s != [] {
      CollapsedSlice(s, 1, |s|);
      if IsSpace(s[0]) {
        assert TrimLeft(s) == TrimLeft(s[1..]);
        assert s[1..] == [] || !IsSpace(s[1]);
        assert TrimLeft(s[1..]) == s[1..];
      }
      CollapseCollapsed(s[1..]);
      assert s == [s[0]] + s[1..];
    }
  }

  /**
   * `Collapse` distributes over a concatenation whose left part ends in a character
   * that is not whitespace.
   */
  lemma {:induction false} CollapseAppend(a: string, b: string)
    requires a != [] && !IsSpace(a[|a| - 1])
    ensures Collapse(a + b) == Collapse(a) + Collapse(b)
    decreases |a|, 1
  {
    var s := a + b;
    if IsSpace(a[0]) {
      CollapseAppendLeadingSpace(a, b);
    } else if |a| > 1 {
      assert Collapse(s) == [a[0]] + Collapse(a[1..] + b) by {
        assert s[0] == a[0] && s[1..] == a[1..] + b;
      }
      assert Collapse(a[1..] + b) == Collapse(a[1..]) + Collapse(b) by {
        CollapseAppend(a[1..], b);
      }
      assert Collapse(a) == [a[0]] + Collapse(a[1..]);
      ConsAppend(a[0], Collapse(a[1..]), Collapse(b));
    } else {
      assert Collapse(s) == [a[0]] + Collapse(b) by {
        assert s[0] == a[0] && s[1..] == b;
      }
      assert Collapse(a) == [a[0]] by {
        assert a[1..] == [];
      }
    }
  }

  lemma {:induction false} CollapseAppendLeadingSpace(a: string, b: string)
    requires a != [] && IsSpace(a[0]) && !IsSpace(a[|a| - 1])
    ensures Collapse(a + b) == Collapse(a) + Collapse(b)
    decreases |a|, 0
  {
    var t := TrimLeft(a);
    assert t != [] && t[|t| - 1] == a[|a| - 1] && TrimLeft(a + b) == t + b by {
      TrimLeftAppend(a, b);
    }
    assert Collapse(a + b) == [' '] + Collapse(t + b) by {
      assert (a + b)[0] == a[0];
    }
    assert Collapse(t + b) == Collapse(t) + Collapse(b) by {
      CollapseAppend(t, b);
    }
    assert Collapse(a) == [' '] + Collapse(t);
    ConsAppend(' ', Collapse(t), Collapse(b));
  }

  lemma ConsAppend(c: char, x: string, y: string)
    ensures [c] + (x + y) == ([c] + x) + y
  {
  }

  /** Leading whitespace never reaches past a character that is not whitespace. */
  lemma {:induction false} TrimLeftAppend(a: string, b: string)
    requires a != [] && !IsSpace(a[|a| - 1])
    ensures TrimLeft(a + b) == TrimLeft(a) + b
    ensures TrimLeft(a) != []
  {
    assert (a + b)[0] == a[0];
    if IsSpace(a[0]) {
      assert |a| > 1;
      assert (a + b)[1..] == a[1..] + b;
      TrimLeftAppend(a[1..], b);
      assert TrimLeft(a + b) == TrimLeft(a[1..] + b);
      assert TrimLeft(a) == TrimLeft(a[1..]);
    } else {
      assert TrimLeft(a + b) == a + b;
    }
  }

  /** Trailing whitespace never reaches back past a character that is not whitespace. */
  lemma {:induction false} TrimRightAppend(a: string, b: string)
    requires a != [] && !IsSpace(a[|a| - 1])
    ensures TrimRight(a + b) == a + TrimRight(b)
    decreases |b|
  {
    if b == [] {
      assert a + b == a;
    } else if IsSpace(b[|b| - 1]) {
      var s := a + b;
      assert s[|s| - 1] == b[|b| - 1];
      assert s[..|s| - 1] == a + b[..|b| - 1];
      TrimRightAppend(a, b[..|b| - 1]);
    } else {
      assert (a + b)[|a + b| - 1] == b[|b| - 1];
    }
  }

  /**
   * Stripping leading whitespace, a word with no whitespace at its ends and any tail
   * keeps the word and the tail without its trailing whitespace.
   */
  lemma StripLeadAndTail(p: string, w: string, c: string)
    requires AllSpace(p) && w != [] && NoEdgeSpace(w)
    ensures Strip(p + w + c) == w + TrimRight(c)
  {
    var x := p + (w + c);
    assert p + w + c == x;
    assert forall i {:trigger IsSpace(x[i])} :: 0 <= i < |p| ==> IsSpace(x[i]) by {
      forall i | 0 <= i < |p| ensures IsSpace(x[i]) {
        assert x[i] == p[i];
      }
    }
    TrimLeftPrefix(x, |p|);
    assert x[|p|..] == w + c;
    TrimLeftAppend(w, c);
    assert TrimLeft(w) == w by {
      assert !IsSpace(w[0]);
    }
    TrimRightAppend(w, c);
  }

  /**
   * Collapsing leading whitespace, a collapsed word with no whitespace at its ends and
   * a tail gives at most one space, the word, and the collapsed tail.
   */
  lemma CollapseLeadAndTail(lead: string, w: string, tail: string)
    requires AllSpace(lead) && w != [] && NoEdgeSpace(w) && Collapsed(w)
    ensures Collapse(lead + w + tail) == (if lead == [] then [] else [' ']) + w + Collapse(tail)
  {
    CollapseCollapsed(w);
    CollapseAppend(lead + w, tail);
    if lead != [] {
      TrimLeftPrefix(lead + w, |lead|);
      assert (lead + w)[|lead|..] == w;
      assert (lead + w)[0] == lead[0] && IsSpace(lead[0]);
      assert TrimLeft(w) == w by {
        assert !IsSpace(w[0]);
      }
    } else {
      assert lead + w == w;
    }
  }

  /** Dropping `k` leading whitespace characters does not change what `TrimLeft` returns. */
  lemma {:induction false} TrimLeftPrefix(s: string, k: nat)
    requires k <= |s|
    requires forall i {:trigger IsSpace(s[i])} :: 0 <= i < k ==> IsSpace(s[i])
    ensures TrimLeft(s) == TrimLeft(s[k..])
    decreases k
  {
    if k > 0 {
      assert s[1..][k - 1..] == s[k..];
      TrimLeftPrefix(s[1..], k - 1);
    }
  }

  /** Dropping `k` trailing whitespace characters does not change what `TrimRight` returns. */
  lemma {:induction false} TrimRightSuffix(s: string, k: nat)
    requires k <= |s|
    requires forall i {:trigger IsSpace(s[i])} :: |s| - k <= i < |s| ==> IsSpace(s[i])
    ensures TrimRight(s) == TrimRight(s[..|s| - k])
    decreases k
  {
    if k > 0 {
      var p := s[..|s| - 1];
      assert p[..|p| - (k - 1)] == s[..|s| - k];
      TrimRightSuffix(p, k - 1);
    }
  }

  /** Whitespace in front of `x` makes no difference to `Strip`. */
  lemma StripDropLead(p: string, x: string)
    requires AllSpace(p)
    ensures Strip(p + x) == Strip(x)
  {
    var s := p + x;
    assert forall i {:trigger IsSpace(s[i])} :: 0 <= i < |p| ==> IsSpace(s[i]) by {
      forall i | 0 <= i < |p| ensures IsSpace(s[i]) {
        assert s[i] == p[i];
      }
    }
    TrimLeftPrefix(s, |p|);
    assert s[|p|..] == x;
  }

  /** A run of whitespace in front of `t` collapses to one space, then `t` collapsed without its own leading whitespace. */
  lemma CollapseAfterSpaces(p: string, t: string)
    requires AllSpace(p) && p != []
    ensures Collapse(p + t) == [' '] + Collapse(TrimLeft(t))
  {
    var s := p + t;
    assert IsSpace(s[0]) by {
      assert s[0] == p[0];
    }
    assert forall i {:trigger IsSpace(s[i])} :: 0 <= i < |p| ==> IsSpace(s[i]) by {
      forall i | 0 <= i < |p| ensures IsSpace(s[i]) {
        assert s[i] == p[i];
      }
    }
    TrimLeftPrefix(s, |p|);
    assert s[|p|..] == t;
  }

  /** Collapsing and then stripping does not see the leading whitespace of the text. */
  lemma StripCollapseTrimLeft(t: string)
    ensures Strip(Collapse(t)) == Strip(Collapse(TrimLeft(t)))
  {
    if t != [] && IsSpace(t[0]) {
      assert Collapse(t) == [' '] + Collapse(TrimLeft(t));
      StripDropLead([' '], Collapse(TrimLeft(t)));
    }
  }

  /** Collapsing and then stripping does not see whitespace put in front of the text. */
  lemma StripCollapseLead(p: string, t: string)
    requires AllSpace(p)
    ensures Strip(Collapse(p + t)) == Strip(Collapse(t))
  {
    if p == [] {
      assert p + t == t;
    } else {
      CollapseAfterSpaces(p, t);
      StripDropLead([' '], Collapse(TrimLeft(t)));
      StripCollapseTrimLeft(t);
    }
  }

  /**
   * Collapsing and then stripping a word, a run of whitespace and any text gives the word,
   * then one space and what the text gives on its own, unless that is empty.
   */
  lemma StripCollapseWord(a: string, p: string, t: string)
    requires a != [] && NoEdgeSpace(a) && Collapsed(a)
    requires AllSpace(p) && p != []
    ensures var rest := Strip(Collapse(t));
      Strip(Collapse(a + p + t)) == if rest == [] then a else a + [' '] + rest
  {
    var c := Collapse(TrimLeft(t));
    CollapseWordSpaces(a, p, t);
    StripCollapseTrimLeft(t);
    CollapseShape(TrimLeft(t));
    if c == [] {
      StripWordSpace(a);
    } else {
      StripWordSpaceRest(a, c);
    }
  }

  /** A word, a run of whitespace and any text collapse to the word, one space and the collapsed text without its leading whitespace. */
  lemma CollapseWordSpaces(a: string, p: string, t: string)
    requires a != [] && !IsSpace(a[|a| - 1]) && Collapsed(a)
    requires AllSpace(p) && p != []
    ensures Collapse(a + p + t) == a + ([' '] + Collapse(TrimLeft(t)))
  {
    assert a + p + t == a + (p + t);
    CollapseAppend(a, p + t);
    CollapseCollapsed(a);
    CollapseAfterSpaces(p, t);
  }

  /** Stripping a word and one space gives the word. */
  lemma StripWordSpace(a: string)
    requires a != [] && NoEdgeSpace(a)
    ensures Strip(a + ([' '] + [])) == a
  {
    assert a + ([' '] + []) == [] + a + [' '];
    StripPadded([], a, [' ']);
  }

  /** Stripping a word, one space and text that starts with no whitespace strips only the end of that text. */
  lemma StripWordSpaceRest(a: string, c: string)
    requires a != [] && NoEdgeSpace(a)
    requires c != [] && !IsSpace(c[0])
    ensures Strip(c) != [] && Strip(a + ([' '] + c)) == a + [' '] + Strip(c)
  {
    var x, v := c[0], c[1..];
    assert c == [x] + v;
    SpaceCharAppend(a, x, v);
    StripNoLeadAppend(a + [' ', x], v);
    StripNoLeadAppend([x], v);
    SpaceCharAppend(a, x, TrimRight(v));
  }

  /** Stripping text that starts and ends with no whitespace, then more text, strips only the end of the rest. */
  lemma StripNoLeadAppend(h: string, v: string)
    requires h != [] && NoEdgeSpace(h)
    ensures Strip(h + v) == h + TrimRight(v)
  {
    assert (h + v)[0] == h[0];
    TrimLeftNoLead(h + v);
    TrimRightAppend(h, v);
  }

  lemma SpaceCharAppend(a: string, x: char, u: string)
    ensures a + ([' '] + ([x] + u)) == (a + [' ', x]) + u
    ensures (a + [' ', x]) + u == a + [' '] + ([x] + u)
  {
  }

  /**
   * Stripping text with a character other than whitespace inside trims only the part before
   * that character at the front, and only the part after it at the back.
   */
  lemma StripAround(x: string, c: char, y: string)
    requires !IsSpace(c)
    ensures Strip(x + [c] + y) == TrimLeft(x) + [c] + TrimRight(y)
  {
    var l := TrimLeft(x);
    assert TrimLeft(x + [c] + y) == l + [c] + y by {
      TrimLeftAround(x, c, y);
    }
    assert TrimRight(l + [c] + y) == (l + [c]) + TrimRight(y) by {
      TrimRightAppend(l + [c], y);
    }
  }

  /** Trimming the front of text with a character other than whitespace inside trims only the part before it. */
  lemma {:induction false} TrimLeftAround(x: string, c: char, y: string)
    requires !IsSpace(c)
    ensures TrimLeft(x + [c] + y) == TrimLeft(x) + [c] + y
  {
    var s := x + [c] + y;
    if x == [] {
      assert s == [c] + y;
    } else {
      assert s[0] == x[0];
      if IsSpace(x[0]) {
        assert s[1..] == x[1..] + [c] + y;
        TrimLeftAround(x[1..], c, y);
      }
    }
  }

  /** Text that starts with no whitespace has no leading whitespace to trim. */
  lemma TrimLeftNoLead(s: string)
    requires s == [] || !IsSpace(s[0])
    ensures TrimLeft(s) == s
  {
  }

  /** The lower-case form of one character, as Python's `str.lower` gives it for the characters it maps into ASCII. */
  function LowerChar(c: char): (d: char)
    ensures IsSpace(d) <==> IsSpace(c)
    ensures d == c || ('A' <= c <= 'Z') || c == '\U{212A}'
  {
    if 'A' <= c <= 'Z' then (c as int + 32) as char
    else if c == '\U{212A}' then 'k'
    else c
  }

  /** Python's `str.lower`, as far as the converter's comparisons against ASCII literals can tell. */
  function Lower(s: string): (r: string)
    ensures |r| == |s|
    ensures forall i :: 0 <= i < |s| ==> r[i] == LowerChar(s[i])
  {
    seq(|s|, i requires 0 <= i < |s| => LowerChar(s[i]))
  }

  /** Text without capital letters or the Kelvin sign is its own lower-case form. */
  lemma LowerOfLower(s: string)
    requires forall c :: c in s ==> !('A' <= c <= 'Z') && c != '\U{212A}'
    ensures Lower(s) == s
  {
    forall i | 0 <= i < |s| ensures Lower(s)[i] == s[i] {
      assert s[i] in s;
    }
  }

  /** Lower-casing text between whitespace lower-cases the text and keeps the whitespace. */
  lemma LowerPadded(lead: string, name: string, trail: string)
    requires AllSpace(lead) && AllSpace(trail)
    ensures Lower(lead + name + trail) == Lower(lead) + Lower(name) + Lower(trail)
    ensures AllSpace(Lower(lead)) && AllSpace(Lower(trail))
  {
    var s := lead + name + trail;
    var r := Lower(lead) + Lower(name) + Lower(trail);
    forall k | 0 <= k < |s| ensures Lower(s)[k] == r[k] {
      if k < |lead| {
        assert s[k] == lead[k];
      } else if k < |lead| + |name| {
        assert s[k] == name[k - |lead|];
      } else {
        assert s[k] == trail[k - |lead| - |name|];
      }
    }
  }

  predicate StartsWith(s: string, prefix: string) {
    |prefix| <= |s| && s[..|prefix|] == prefix
  }

  /** The index of the first occurrence of `c` in `s` (Python's `str.find`, `None` for -1). */
  function FirstIndex(s: string, c: char): (r: Option<nat>)
    ensures r.None? <==> c !in s
    ensures r.Some? ==> r.value < |s| && s[r.value] == c && c !in s[..r.value]
  {
    if s == [] then None
    else if s[0] == c then Some(0)
    else
      match FirstIndex(s[1..], c)
      case None => None
      case Some(k) =>
        assert s[..k + 1] == [s[0]] + s[1..][..k];
        Some(k + 1)
  }

  /** The index of the last occurrence of `c` in `s` (Python's `str.rfind`, `None` for -1). */
  function LastIndex(s: string, c: char): (r: Option<nat>)
    ensures r.None? <==> c !in s
    ensures r.Some? ==> r.value < |s| && s[r.value] == c && c !in s[r.value + 1..]
  {
    if s == [] then None
    else if s[|s| - 1] == c then Some(|s| - 1)
    else
      var r := LastIndex(s[..|s| - 1], c);
      assert s == s[..|s| - 1] + [s[|s| - 1]];
      if r.Some? then
        assert s[r.value + 1..] == s[..|s| - 1][r.value + 1..] + [s[|s| - 1]];
        r
      else r
  }

  /** An occurrence with none before it is the one `FirstIndex` finds. */
  lemma FirstIndexAt(s: string, c: char, i: nat)
    requires i < |s| && s[i] == c && c !in s[..i]
    ensures FirstIndex(s, c) == Some(i)
  {
    var r := FirstIndex(s, c);
    assert r.Some?;
  }

  /** An occurrence with none after it is the one `LastIndex` finds. */
  lemma LastIndexAt(s: string, c: char, i: nat)
    requires i < |s| && s[i] == c && c !in s[i + 1..]
    ensures LastIndex(s, c) == Some(i)
  {
    var r := LastIndex(s, c);
    assert r.Some?;
  }

  /** Python's `sep.join(xs)`. */
  function Join(xs: seq<string>, sep: char): (r: string)
    ensures forall c :: c in r ==> c == sep || exists x :: x in xs && c in x
  {
    if xs == [] then []
    else if |xs| == 1 then xs[0]
    else
      var rest := Join(xs[1..], sep);
      assert forall x :: x in xs[1..] ==> x in xs;
      xs[0] + [sep] + rest
  }

  /** Python's `s.split(sep)`: the pieces between occurrences of `sep`. */
  function Split(s: string, sep: char): (r: seq<string>)
    ensures r != []
    decreases |s|
  {
    match FirstIndex(s, sep)
    case None => [s]
    case Some(i) => [s[..i]] + Split(s[i + 1..], sep)
  }

  /** Splitting at the first separator: the piece before it, then the split of what follows. */
  lemma SplitAt(s: string, sep: char, i: nat)
    requires i < |s| && s[i] == sep && sep !in s[..i]
    ensures Split(s, sep) == [s[..i]] + Split(s[i + 1..], sep)
  {
    FirstIndexAt(s, sep, i);
  }

  /** Splitting a join on the same separator gives back the pieces, when no piece holds the separator. */
  lemma {:induction false} SplitJoin(xs: seq<string>, sep: char)
    requires xs != []
    requires forall x :: x in xs ==> sep !in x
    ensures Split(Join(xs, sep), sep) == xs
  {
    if |xs| == 1 {
      assert sep !in xs[0];
    } else {
      var rest := Join(xs[1..], sep);
      var s := xs[0] + [sep] + rest;
      var k := |xs[0]|;
      assert Split(s, sep) == [xs[0]] + Split(rest, sep) by {
        assert sep !in xs[0];
        assert s[k] == sep && s[..k] == xs[0] && s[k + 1..] == rest;
        SplitAt(s, sep, k);
      }
      assert Split(rest, sep) == xs[1..] by {
        assert forall x :: x in xs[1..] ==> x in xs;
        SplitJoin(xs[1..], sep);
      }
      assert xs == [xs[0]] + xs[1..];
    }
  }
}
