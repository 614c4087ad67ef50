/**
 * The pure helpers behind the Blockly blocks: the console escape for a
 * cursor position, the emoji control characters, and the three similarity
 * scores (colours, numbers, strings) on a 0..100 scale.
 *
 * Characters are modelled by their code points; the console sees one
 * character per code.
 */
module Blockly {
  import opened Common

  // ---------------------------------------------------------------------
  // consolePosition

  /** `min(255, max(0, v))`. */
  function Clamp(v: int): (c: int)
    ensures 0 <= c <= 255
    ensures 0 <= v <= 255 ==> c == v
    ensures v < 0 ==> c == 0
    ensures v > 255 ==> c == 255
  {
    if v < 0 then 0 else if v > 255 then 255 else v
  }

  /**
   * The characters written for a cursor move to (x, y). Code 10 would be a
   * newline, so a coordinate equal to 10 is sent as 9 and flagged by a
   * trailing 4 (x) or 6 (y).
   */
  function ConsolePosition(x: int, y: int): (s: seq<int>)
    ensures |s| >= 3 && s[0] == 2
  {
    if x != 10 && y != 10 then [2, Clamp(x), Clamp(y)]
    else if x == 10 && y == 10 then [2, 9, 9, 4, 6]
    else if x == 10 then [2, 9, Clamp(y), 4]
    else [2, Clamp(x), 9, 6]
  }

  /** Every character code is in 0..255 and none is 10, a newline. */
  lemma ConsolePositionBytes(x: int, y: int)
    ensures forall i :: 0 <= i < |ConsolePosition(x, y)| ==>
      0 <= ConsolePosition(x, y)[i] <= 255 && ConsolePosition(x, y)[i] != 10
  {
  }

  /** How a receiver reads the escape back: the length and the trailing flags tell which 9 stands for 10. */
  function ReadPosition(s: seq<int>): Option<(int, int)> {
    if |s| == 3 && s[0] == 2 then Some((s[1], s[2]))
    else if |s| == 5 && s == [2, 9, 9, 4, 6] then Some((10, 10))
    else if |s| == 4 && s[0] == 2 && s[3] == 4 then Some((10, s[2]))
    else if |s| == 4 && s[0] == 2 && s[3] == 6 then Some((s[1], 10))
    else None
  }

  /** The escape loses nothing but the clamping: the receiver recovers the clamped position, 10 included. */
  lemma ConsolePositionRoundTrip(x: int, y: int)
    ensures ReadPosition(ConsolePosition(x, y)) == Some((Clamp(x), Clamp(y)))
  {
  }

  // ---------------------------------------------------------------------
  // emojiCharacter

  /** The emotions with a control character, in code order. */
  const Emotions: seq<string> :=
    ["in-love", "sad", "happy", "thinking", "quiet", "confused", "suspicious", "unhappy", "bored", "surprised"]

  /** The control character of an emotion; any other name gives nothing (Python's `None`). */
  function EmojiCharacter(c: string): (r: Option<int>)
    ensures r.Some? ==> 20 <= r.value <= 29
  {
    if c == "in-love" then Some(20)
    else if c == "sad" then Some(21)
    else if c == "happy" then Some(22)
    else if c == "thinking" then Some(23)
    else if c == "quiet" then Some(24)
    else if c == "confused" then Some(25)
    else if c == "suspicious" then Some(26)
    else if c == "unhappy" then Some(27)
    else if c == "bored" then Some(28)
    else if c == "surprised" then Some(29)
    else None
  }

  /** The i-th emotion gets code 20 + i, so the ten codes are distinct. */
  lemma EmojiCodes(i: int)
    requires 0 <= i < |Emotions|
    ensures EmojiCharacter(Emotions[i]) == Some(20 + i)
  {
  }

  /** A name has a control character exactly when it is one of the ten emotions. */
  lemma EmojiKnown(c: string)
    ensures EmojiCharacter(c).Some? <==> c in Emotions
  {
    if c in Emotions {
      var i :| 0 <= i < |Emotions| && Emotions[i] == c;
      EmojiCodes(i);
    }
  }

  /** Different emotions never share a code. */
  lemma EmojiInjective(c: string, e: string)
    requires EmojiCharacter(c).Some? && EmojiCharacter(c) == EmojiCharacter(e)
    ensures c == e
  {
  }

  // ---------------------------------------------------------------------
  // colorCompare

  datatype Color = Color(r: int, g: int, b: int)

  predicate InRange(c: Color) {
    0 <= c.r <= 255 && 0 <= c.g <= 255 && 0 <= c.b <= 255
  }

  function Abs(v: int): nat {
    if v < 0 then -v else v
  }

  /** The channel distance |dr| + |dg| + |db|. */
  function Distance(a: Color, b: Color): (d: nat)
    ensures InRange(a) && InRange(b) ==> d <= 765
  {
    Abs(a.r - b.r) + Abs(a.g - b.g) + Abs(a.b - b.b)
  }

  /** `colorCompare` as written: the distance scaled by 20/153, a distance and not a likeness. */
  function ColorCompareAsWritten(a: Color, b: Color): (c: real)
    ensures c >= 0.0
    ensures InRange(a) && InRange(b) ==> c <= 100.0
  {
    (Distance(a, b) * 20) as real / 153.0
  }

  /** As written the score is 0 for a colour against itself and 100 for black against white: reversed. */
  lemma ColorCompareReversed(a: Color)
    ensures ColorCompareAsWritten(a, a) == 0.0
    ensures ColorCompareAsWritten(Color(0, 0, 0), Color(255, 255, 255)) == 100.0
  {
  }

  /** The likeness the block promises: 100 for the same colour, 0 for opposite ones. */
  function ColorCompare(a: Color, b: Color): (c: real)
    ensures InRange(a) && InRange(b) ==> 0.0 <= c <= 100.0
    ensures c == 100.0 - ColorCompareAsWritten(a, b)
  {
    100.0 - (Distance(a, b) * 20) as real / 153.0
  }

  /** The corrected score is 100 exactly for identical colours, 0 for black against white, and symmetric. */
  lemma ColorCompareMeaning(a: Color, b: Color)
    ensures ColorCompare(a, b) == 100.0 <==> a == b
    ensures ColorCompare(Color(0, 0, 0), Color(255, 255, 255)) == 0.0
    ensures ColorCompare(a, b) == ColorCompare(b, a)
  {
  }

  // ---------------------------------------------------------------------
  // numberCompare

  /** `(1 - |a - b|/(|a| + |b|))*100`; the division by zero when both are 0 is caught and gives 0. */
  function NumberCompare(a: real, b: real): (c: real)
    ensures a == 0.0 && b == 0.0 ==> c == 0.0
  {
    var den := Common.Abs(a) + Common.Abs(b);
    if den == 0.0 then 0.0 else (1.0 - Common.Abs(a - b) / den) * 100.0
  }

  /** A share `i/u` of a positive whole lies in [0, 1], is 0 exactly for no share and 1 exactly for all of it. */
  lemma Share(i: real, u: real)
    requires 0.0 <= i <= u && u > 0.0
    ensures 0.0 <= i / u <= 1.0
    ensures i / u == 0.0 <==> i == 0.0
    ensures i / u == 1.0 <==> i == u
  {
    var q := i / u;
    assert q * u == i;
  }

  /** |a - b| reaches |a| + |b| exactly when a and b do not share a sign. */
  lemma OppositeSigns(a: real, b: real)
    ensures Common.Abs(a - b) <= Common.Abs(a) + Common.Abs(b)
    ensures Common.Abs(a - b) == Common.Abs(a) + Common.Abs(b) <==> a * b <= 0.0
  {
    if a > 0.0 && b > 0.0 {
      assert a * b > 0.0;
    } else if a < 0.0 && b < 0.0 {
      assert a * b == (-a) * (-b);
      assert (-a) * (-b) > 0.0;
    } else if a >= 0.0 && b <= 0.0 {
      assert a * b == -(a * (-b));
      assert a * (-b) >= 0.0;
    } else {
      assert a * b == -((-a) * b);
      assert (-a) * b >= 0.0;
    }
  }

  /** The score lies in [0, 100], does not depend on the order, is 100 exactly for equal non-zero numbers, and 0 exactly when the numbers do not share a sign. */
  lemma NumberCompareMeaning(a: real, b: real)
    ensures 0.0 <= NumberCompare(a, b) <= 100.0
    ensures NumberCompare(a, b) == NumberCompare(b, a)
    ensures NumberCompare(a, b) == 100.0 <==> a == b && a != 0.0
    ensures NumberCompare(a, b) == 0.0 <==> a * b <= 0.0
  {
    var den := Common.Abs(a) + Common.Abs(b);
    assert Common.Abs(a - b) == Common.Abs(b - a);
    OppositeSigns(a, b);
    if den == 0.0 {
      assert a == 0.0;
      assert a * b == 0.0;
    } else {
      Share(Common.Abs(a - b), den);
      assert Common.Abs(a - b) == 0.0 <==> a == b;
    }
  }

  // ---------------------------------------------------------------------
  // stringCompare

  /** `set(list(s))`: the characters of a string. */
  function Chars(s: string): set<char> {
    set ch | ch in s
  }

  /** `len(e)/(len(c) + len(d) - len(e))*100` over the two character sets; two empty strings divide by zero, which is caught and gives 0. */
  function StringCompare(a: string, b: string): (f: real)
    ensures a == [] && b == [] ==> f == 0.0
  {
    var c, d := Chars(a), Chars(b);
    var e := c * d;
    var den := |c| + |d| - |e|;
    if den == 0 then 0.0 else (|e| as real / den as real) * 100.0
  }

  /** Inclusion-exclusion: the denominator is the size of the union. */
  lemma {:induction false} UnionSize(c: set<char>, d: set<char>)
    ensures |c + d| + |c * d| == |c| + |d|
    decreases |c|
  {
    if c != {} {
      var x :| x in c;
      var c' := c - {x};
      UnionSize(c', d);
      if x in d {
        assert c + d == c' + d;
        assert c * d == (c' * d) + {x};
      } else {
        assert c + d == (c' + d) + {x};
        assert c * d == c' * d;
      }
    }
  }

  /** The score is the Jaccard index of the character sets, scaled to 100. */
  lemma StringCompareJaccard(a: string, b: string)
    ensures Chars(a) + Chars(b) != {} ==>
      StringCompare(a, b) == (|Chars(a) * Chars(b)| as real / |Chars(a) + Chars(b)| as real) * 100.0
    ensures Chars(a) + Chars(b) == {} ==> StringCompare(a, b) == 0.0
  {
    UnionSize(Chars(a), Chars(b));
  }

  /** A subset is no larger, and only as large when it is the whole set. */
  lemma {:induction false} SubsetSize(c: set<char>, d: set<char>)
    requires c <= d
    ensures |c| <= |d|
    ensures |c| == |d| ==> c == d
    decreases |d|
  {
    if d != {} {
      var x :| x in d;
      if x in c {
        SubsetSize(c - {x}, d - {x});
        if |c| == |d| {
          assert c == (c - {x}) + {x} && d == (d - {x}) + {x};
        }
      } else {
        SubsetSize(c, d - {x});
      }
    }
  }

  /**
   * The score lies in [0, 100], does not depend on the order, is 100
   * exactly when both strings use the same non-empty set of characters,
   * and 0 exactly when they share no character.
   */
  lemma StringCompareMeaning(a: string, b: string)
    ensures 0.0 <= StringCompare(a, b) <= 100.0
    ensures StringCompare(a, b) == StringCompare(b, a)
    ensures StringCompare(a, b) == 100.0 <==> Chars(a) == Chars(b) && Chars(a) != {}
    ensures StringCompare(a, b) == 0.0 <==> Chars(a) !! Chars(b)
  {
    var c, d := Chars(a), Chars(b);
    UnionSize(c, d);
    assert c * d == d * c && c + d == d + c;
    if c + d != {} {
      SubsetSize(c * d, c + d);
      Share(|c * d| as real, |c + d| as real);
      SameSets(c, d);
    }
  }

  /** The common part is the union exactly when the sets are equal. */
  lemma SameSets(c: set<char>, d: set<char>)
    ensures c * d == c + d <==> c == d
  {
    if c * d == c + d {
      forall ch | ch in c ensures ch in d {
        assert ch in c + d;
      }
      forall ch | ch in d ensures ch in c {
        assert ch in c + d;
      }
    }
  }
}
