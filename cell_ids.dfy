/**
 * The names the board gives its cells: a two-letter row prefix taken in turn
 * from `itertools.product` over 'a'..'z' ('aa', 'ab', ..., 'zz'), followed by the
 * column number in decimal. Also Python's `x in s` on strings, which the board
 * uses to classify tiles.
 */
module CellIds {

  /** The number of two-letter prefixes; asking for one more ends the product. */
  const RowLimit := 676

  function Digit(d: nat): char
    requires d < 10
  {
    "0123456789"[d]
  }

  /** `str(n)` for a non-negative integer. */
  function NatToString(n: nat): (s: string)
    ensures |s| >= 1 && (n < 10 <==> |s| == 1)
    decreases n
  {
    if n < 10 then [Digit(n)] else NatToString(n / 10) + [Digit(n % 10)]
  }

  lemma DigitInjective(a: nat, b: nat)
    requires a < 10 && b < 10 && Digit(a) == Digit(b)
    ensures a == b
  {
  }

  /** Different numbers print differently. */
  lemma {:induction false} NatToStringInjective(a: nat, b: nat)
    requires NatToString(a) == NatToString(b)
    ensures a == b
    decreases a
  {
    var s := NatToString(a);
    if a < 10 {
      DigitInjective(a, b);
    } else {
      assert b >= 10;
      var pa := NatToString(a / 10);
      var pb := NatToString(b / 10);
      assert s == pa + [Digit(a % 10)] == pb + [Digit(b % 10)];
      assert s[|s| - 1] == Digit(a % 10) == Digit(b % 10);
      DigitInjective(a % 10, b % 10);
      assert pa == s[..|s| - 1] == pb;
      NatToStringInjective(a / 10, b / 10);
    }
  }

  /** The prefix of row `r`: the r-th pair of letters in lexicographic order. */
  function RowPrefix(r: nat): (s: string)
    requires r < RowLimit
    ensures |s| == 2 && 'a' <= s[0] <= 'z' && 'a' <= s[1] <= 'z'
  {
    [('a' as int + r / 26) as char, ('a' as int + r % 26) as char]
  }

  lemma {:induction false} RowPrefixInjective(r1: nat, r2: nat)
    requires r1 < RowLimit && r2 < RowLimit && RowPrefix(r1) == RowPrefix(r2)
    ensures r1 == r2
  {
    assert RowPrefix(r1)[0] == RowPrefix(r2)[0] && RowPrefix(r1)[1] == RowPrefix(r2)[1];
    assert r1 / 26 == r2 / 26 && r1 % 26 == r2 % 26;
  }

  /** `row_str + str(col_idx)`. */
  function CellId(r: nat, c: nat): (id: string)
    requires r < RowLimit
    ensures |id| >= 3 && id[..2] == RowPrefix(r)
  {
    RowPrefix(r) + NatToString(c)
  }

  /** Cell ids are pairwise distinct: the id determines row and column. */
  lemma {:induction false} CellIdInjective(r1: nat, c1: nat, r2: nat, c2: nat)
    requires r1 < RowLimit && r2 < RowLimit && CellId(r1, c1) == CellId(r2, c2)
    ensures r1 == r2 && c1 == c2
  {
    var id := CellId(r1, c1);
    RowPrefixInjective(r1, r2);
    assert NatToString(c1) == id[2..] == NatToString(c2);
    NatToStringInjective(c1, c2);
  }

  /** Python's `x in s` for strings: `x` occurs in `s` as a contiguous part. */
  predicate IsSubstring(x: string, s: string) {
    exists i :: 0 <= i <= |s| && OccursAt(x, s, i)
  }

  /** `x` occurs in `s` starting at index `i`. */
  predicate OccursAt(x: string, s: string, i: int) {
    0 <= i <= |s| - |x| && s[i..i + |x|] == x
  }

  /** No string is contained in a shorter one, and one as long is contained only in itself. */
  lemma LongSubstringIsEqual(x: string, s: string)
    requires |x| >= |s|
    ensures IsSubstring(x, s) <==> x == s
  {
    if x == s {
      assert OccursAt(x, s, 0);
    }
  }

  /**
   * The test `tile in ('tree')` is a substring test, which agrees with equality
   * for every label of four or more characters.
   */
  lemma TreeTestIsEqualityForLongLabels(tile: string)
    requires |tile| >= 4
    ensures IsSubstring(tile, "tree") <==> tile == "tree"
    ensures IsSubstring(tile, "home") <==> tile == "home"
  {
    LongSubstringIsEqual(tile, "tree");
    LongSubstringIsEqual(tile, "home");
  }

  /** Every contiguous part of "tree". */
  lemma TreePart(tile: string, i: int)
    requires OccursAt(tile, "tree", i)
    ensures tile in {"", "t", "r", "e", "tr", "re", "ee", "tre", "ree", "tree"}
  {
    assert tile == "tree"[i..i + |tile|];
    if |tile| == 0 {
      assert "tree"[0..0] == "";
    } else if i == 0 && |tile| == 1 {
      assert "tree"[0..1] == "t";
    } else if i == 0 && |tile| == 2 {
      assert "tree"[0..2] == "tr";
    } else if i == 0 && |tile| == 3 {
      assert "tree"[0..3] == "tre";
    } else if i == 0 && |tile| == 4 {
      assert "tree"[0..4] == "tree";
    } else if i == 1 && |tile| == 1 {
      assert "tree"[1..2] == "r";
    } else if i == 1 && |tile| == 2 {
      assert "tree"[1..3] == "re";
    } else if i == 1 && |tile| == 3 {
      assert "tree"[1..4] == "ree";
    } else if i == 2 && |tile| == 1 {
      assert "tree"[2..3] == "e";
    } else if i == 2 && |tile| == 2 {
      assert "tree"[2..4] == "ee";
    } else if i == 3 && |tile| == 1 {
      assert "tree"[3..4] == "e";
    }
  }

  /** `x` occurs at `i` in `s` when its characters match those of `s` from `i` on. */
  lemma OccursAtByChars(x: string, s: string, i: int)
    requires 0 <= i <= |s| - |x|
    requires forall k :: 0 <= k < |x| ==> s[i + k] == x[k]
    ensures OccursAt(x, s, i)
  {
    assert s[i..i + |x|] == x;
  }

  /** Every contiguous part of "tree" passes the substring test. */
  lemma TreePartOccurs(tile: string)
    requires tile in {"", "t", "r", "e", "tr", "re", "ee", "tre", "ree", "tree"}
    ensures IsSubstring(tile, "tree")
  {
    if tile == "" {
      OccursAtByChars("", "tree", 0);
    } else if tile == "t" {
      OccursAtByChars("t", "tree", 0);
    } else if tile == "r" {
      OccursAtByChars("r", "tree", 1);
    } else if tile == "e" {
      OccursAtByChars("e", "tree", 2);
    } else if tile == "tr" {
      OccursAtByChars("tr", "tree", 0);
    } else if tile == "re" {
      OccursAtByChars("re", "tree", 1);
    } else if tile == "ee" {
      OccursAtByChars("ee", "tree", 2);
    } else if tile == "tre" {
      OccursAtByChars("tre", "tree", 0);
    } else if tile == "ree" {
      OccursAtByChars("ree", "tree", 1);
    } else if tile == "tree" {
      OccursAtByChars("tree", "tree", 0);
    }
  }

  /**
   * The labels that pass `tile in ('tree')` are exactly the contiguous parts of
   * "tree", among them "t", "re", "ee" and the empty label.
   */
  lemma {:induction false} TreeTestExactly(tile: string)
    ensures IsSubstring(tile, "tree") <==> tile in {"", "t", "r", "e", "tr", "re", "ee", "tre", "ree", "tree"}
  {
    if IsSubstring(tile, "tree") {
      var i :| 0 <= i <= |"tree"| && OccursAt(tile, "tree", i);
      TreePart(tile, i);
    }
    if tile in {"", "t", "r", "e", "tr", "re", "ee", "tre", "ree", "tree"} {
      TreePartOccurs(tile);
    }
  }


  /** Every contiguous part of "home". */
  lemma HomePart(tile: string, i: int)
    requires OccursAt(tile, "home", i)
    ensures tile in {"", "h", "o", "m", "e", "ho", "om", "me", "hom", "ome", "home"}
  {
    assert tile == "home"[i..i + |tile|];
    if |tile| == 0 {
      assert "home"[0..0] == "";
    } else if i == 0 && |tile| == 1 {
      assert "home"[0..1] == "h";
    } else if i == 0 && |tile| == 2 {
      assert "home"[0..2] == "ho";
    } else if i == 0 && |tile| == 3 {
      assert "home"[0..3] == "hom";
    } else if i == 0 && |tile| == 4 {
      assert "home"[0..4] == "home";
    } else if i == 1 && |tile| == 1 {
      assert "home"[1..2] == "o";
    } else if i == 1 && |tile| == 2 {
      assert "home"[1..3] == "om";
    } else if i == 1 && |tile| == 3 {
      assert "home"[1..4] == "ome";
    } else if i == 2 && |tile| == 1 {
      assert "home"[2..3] == "m";
    } else if i == 2 && |tile| == 2 {
      assert "home"[2..4] == "me";
    } else if i == 3 && |tile| == 1 {
      assert "home"[3..4] == "e";
    }
  }

  /** Every contiguous part of "home" passes the substring test. */
  lemma HomePartOccurs(tile: string)
    requires tile in {"", "h", "o", "m", "e", "ho", "om", "me", "hom", "ome", "home"}
    ensures IsSubstring(tile, "home")
  {
    if tile == "" {
      OccursAtByChars("", "home", 0);
    } else if tile == "h" {
      OccursAtByChars("h", "home", 0);
    } else if tile == "o" {
      OccursAtByChars("o", "home", 1);
    } else if tile == "m" {
      OccursAtByChars("m", "home", 2);
    } else if tile == "e" {
      OccursAtByChars("e", "home", 3);
    } else if tile == "ho" {
      OccursAtByChars("ho", "home", 0);
    } else if tile == "om" {
      OccursAtByChars("om", "home", 1);
    } else if tile == "me" {
      OccursAtByChars("me", "home", 2);
    } else if tile == "hom" {
      OccursAtByChars("hom", "home", 0);
    } else if tile == "ome" {
      OccursAtByChars("ome", "home", 1);
    } else if tile == "home" {
      OccursAtByChars("home", "home", 0);
    }
  }

  /** The labels that pass `tile in ('home')`: exactly the contiguous parts of "home". */
  lemma {:induction false} HomeTestExactly(tile: string)
    ensures IsSubstring(tile, "home") <==> tile in {"", "h", "o", "m", "e", "ho", "om", "me", "hom", "ome", "home"}
  {
    if IsSubstring(tile, "home") {
      var i :| 0 <= i <= |"home"| && OccursAt(tile, "home", i);
      HomePart(tile, i);
    }
    if tile in {"", "h", "o", "m", "e", "ho", "om", "me", "hom", "ome", "home"} {
      HomePartOccurs(tile);
    }
  }

}
