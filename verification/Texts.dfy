/**
  Python strings and their ordering.

  A Python `str` is a sequence of code points, surrogates included, so it is not a Dafny
  `string`. `sorted` on a set of names is the function `SortedKeys`.
 */
module Texts {

  type CodePoint = c: int | 0 <= c < 0x11_0000
  type Text = seq<CodePoint>

  /** The text of a literal. */
  function Lit(s: string): (t: Text)
    ensures |t| == |s| && forall i :: 0 <= i < |s| ==> t[i] == s[i] as int
  {
    seq(|s|, i requires 0 <= i < |s| => s[i] as int)
  }

  /** The characters `str.strip` removes. */
  predicate IsSpace(c: CodePoint) {
    9 <= c <= 13 || 28 <= c <= 32 || c == 0x85 || c == 0xA0 || c == 0x1680 || 0x2000 <= c <= 0x200A
    || c == 0x2028 || c == 0x2029 || c == 0x202F || c == 0x205F || c == 0x3000
  }

  /** `value and value.strip() == value` */
  predicate NotPadded(t: Text) {
    t != [] && !IsSpace(t[0]) && !IsSpace(t[|t| - 1])
  }

  /** `a < b` on Python strings: lexicographic by code point. */
  predicate Less(a: Text, b: Text) {
    b != [] && (a == [] || a[0] < b[0] || (a[0] == b[0] && Less(a[1..], b[1..])))
  }

  lemma {:induction false} LessTotal(a: Text, b: Text)
    requires a != b
    ensures Less(a, b) || Less(b, a)
  {
    if a != [] && b != [] && a[0] == b[0] {
      assert a == [a[0]] + a[1..] && b == [b[0]] + b[1..];
      LessTotal(a[1..], b[1..]);
    }
  }

  lemma {:induction false} LessAsymmetric(a: Text, b: Text)
    requires Less(a, b)
    ensures !Less(b, a) && a != b
  {
    if a != [] && a[0] == b[0] {
      LessAsymmetric(a[1..], b[1..]);
    }
  }

  lemma {:induction false} LessTransitive(a: Text, b: Text, c: Text)
    requires Less(a, b) && Less(b, c)
    ensures Less(a, c)
  {
    if a != [] && a[0] == b[0] == c[0] {
      LessTransitive(a[1..], b[1..], c[1..]);
    }
  }

  predicate IsLeast(x: Text, s: set<Text>) {
    x in s && forall y | y in s && y != x :: Less(x, y)
  }

  lemma {:induction false} LeastExists(s: set<Text>) returns (least: Text)
    requires s != {}
    ensures IsLeast(least, s)
    decreases |s|
  {
    var x :| x in s;
    var rest := s - {x};
    if rest == {} {
      assert forall y | y in s :: y == x || y in rest;
      least := x;
    } else {
      var y := LeastExists(rest);
      LessTotal(x, y);
      least := if Less(x, y) then x else y;
      forall z | z in s && z != least ensures Less(least, z) {
        if least == x && z != y {
          LessTransitive(x, y, z);
        }
      }
    }
  }

  predicate Sorted(xs: seq<Text>) {
    forall i, j :: 0 <= i < j < |xs| ==> Less(xs[i], xs[j])
  }

  /** `sorted` applied to a set of strings: take the least, then sort the rest. */
  function SortedKeys(s: set<Text>): (xs: seq<Text>)
    ensures forall x :: x in xs <==> x in s
    decreases |s|
  {
    if s == {} then [] else
      assert exists x :: IsLeast(x, s) by {
        var least := LeastExists(s);
      }
      assert forall x, y | IsLeast(x, s) && IsLeast(y, s) :: x == y by {
        forall x, y | IsLeast(x, s) && IsLeast(y, s) && x != y ensures false {
          LessAsymmetric(x, y);
        }
      }
      var x :| IsLeast(x, s);
      [x] + SortedKeys(s - {x})
  }

  lemma {:induction false} SortedKeysSorted(s: set<Text>)
    ensures Sorted(SortedKeys(s))
    decreases |s|
  {
    if s != {} {
      var xs := SortedKeys(s);
      var rest := s - {xs[0]};
      SortedKeysSorted(rest);
      assert xs[1..] == SortedKeys(rest);
      forall i, j | 0 <= i < j < |xs| ensures Less(xs[i], xs[j]) {
        assert xs[j] == SortedKeys(rest)[j - 1];
        assert SortedKeys(rest)[j - 1] in rest;
        if i > 0 {
          assert xs[i] == SortedKeys(rest)[i - 1];
        }
      }
    }
  }

  lemma SortedDistinct(xs: seq<Text>)
    requires Sorted(xs)
    ensures forall i, j :: 0 <= i < j < |xs| ==> xs[i] != xs[j]
  {
    forall i, j | 0 <= i < j < |xs| ensures xs[i] != xs[j] {
      LessAsymmetric(xs[i], xs[j]);
    }
  }

  /** A sorted sequence is determined by its elements. */
  lemma {:induction false} SortedUnique(xs: seq<Text>, ys: seq<Text>)
    requires Sorted(xs) && Sorted(ys)
    requires forall x :: x in xs <==> x in ys
    ensures xs == ys
  {
    assert forall i | 0 <= i < |xs| :: xs[i] in ys;
    assert forall i | 0 <= i < |ys| :: ys[i] in xs;
    if xs != [] {
      var j :| 0 <= j < |ys| && ys[j] == xs[0];
      var i :| 0 <= i < |xs| && xs[i] == ys[0];
      if i != 0 && j != 0 {
        LessAsymmetric(xs[0], ys[0]);
      }
      assert xs[0] == ys[0];
      SortedDistinct(xs);
      SortedDistinct(ys);
      forall x ensures x in xs[1..] <==> x in ys[1..] {
        assert x in xs[1..] <==> x in xs && x != xs[0];
        assert x in ys[1..] <==> x in ys && x != ys[0];
      }
      SortedUnique(xs[1..], ys[1..]);
      assert xs == [xs[0]] + xs[1..] && ys == [ys[0]] + ys[1..];
    }
  }

  /** `str.strip` */
  function Strip(t: Text): Text
    decreases |t|
  {
    if t == [] then []
    else if IsSpace(t[0]) then Strip(t[1..])
    else if IsSpace(t[|t| - 1]) then Strip(t[..|t| - 1])
    else t
  }

  /** Spaces only, from `i` up to `j`. */
  predicate Spaces(t: Text, i: nat, j: nat)
    requires j <= |t|
  {
    forall k :: i <= k < j ==> IsSpace(t[k])
  }

  predicate Blank(t: Text) {
    Spaces(t, 0, |t|)
  }

  /** `t` is `m` with blanks before and after it. */
  ghost predicate Pads(t: Text, m: Text) {
    exists i: nat, j: nat :: PadsAt(t, m, i, j)
  }

  ghost predicate PadsAt(t: Text, m: Text, i: nat, j: nat) {
    i <= j <= |t| && m == t[i..j] && Spaces(t, 0, i) && Spaces(t, j, |t|)
  }

  lemma PadsBefore(t: Text, m: Text)
    requires t != [] && IsSpace(t[0]) && Pads(t[1..], m)
    ensures Pads(t, m)
  {
    var i: nat, j: nat :| PadsAt(t[1..], m, i, j);
    assert t[i + 1..j + 1] == t[1..][i..j];
    assert forall k | 1 <= k < |t| :: t[k] == t[1..][k - 1];
    assert PadsAt(t, m, i + 1, j + 1);
  }

  lemma PadsAfter(t: Text, m: Text)
    requires t != [] && IsSpace(t[|t| - 1]) && Pads(t[..|t| - 1], m)
    ensures Pads(t, m)
  {
    var i: nat, j: nat :| PadsAt(t[..|t| - 1], m, i, j);
    assert t[i..j] == t[..|t| - 1][i..j];
    assert forall k | 0 <= k < |t| - 1 :: t[k] == t[..|t| - 1][k];
    assert PadsAt(t, m, i, j);
  }

  /** Stripping takes away blanks. */
  lemma {:induction false} StripTakesBlanks(t: Text)
    ensures Pads(t, Strip(t)) && (Strip(t) == [] || NotPadded(Strip(t)))
    decreases |t|
  {
    if t == [] {
      assert PadsAt(t, [], 0, 0);
    } else if IsSpace(t[0]) {
      StripTakesBlanks(t[1..]);
      PadsBefore(t, Strip(t));
    } else if IsSpace(t[|t| - 1]) {
      StripTakesBlanks(t[..|t| - 1]);
      PadsAfter(t, Strip(t));
    } else {
      assert PadsAt(t, t, 0, |t|);
    }
  }

  lemma PadsTail(t: Text, m: Text)
    requires t != [] && IsSpace(t[0]) && Pads(t, m) && (m == [] || NotPadded(m))
    ensures Pads(t[1..], m)
  {
    var i: nat, j: nat :| PadsAt(t, m, i, j);
    var rest := t[1..];
    assert forall k | 0 <= k < |rest| :: rest[k] == t[k + 1];
    if i > 0 {
      assert rest[i - 1..j - 1] == t[i..j];
      assert PadsAt(rest, m, i - 1, j - 1);
    } else {
      assert PadsAt(rest, m, 0, 0);
    }
  }

  lemma PadsFront(t: Text, m: Text)
    requires t != [] && !IsSpace(t[0]) && IsSpace(t[|t| - 1]) && Pads(t, m) && (m == [] || NotPadded(m))
    ensures Pads(t[..|t| - 1], m)
  {
    var i: nat, j: nat :| PadsAt(t, m, i, j);
    var rest := t[..|t| - 1];
    assert forall k | 0 <= k < |rest| :: rest[k] == t[k];
    assert i == 0 && j > 0;
    assert m[j - 1] == t[j - 1];
    assert rest[0..j] == t[0..j];
    assert PadsAt(rest, m, 0, j);
  }

  /** It takes all of them, and nothing else. */
  lemma {:induction false} StripOfPadded(t: Text, m: Text)
    requires Pads(t, m) && (m == [] || NotPadded(m))
    ensures Strip(t) == m
    decreases |t|
  {
    if t != [] {
      if IsSpace(t[0]) {
        PadsTail(t, m);
        StripOfPadded(t[1..], m);
      } else if IsSpace(t[|t| - 1]) {
        PadsFront(t, m);
        StripOfPadded(t[..|t| - 1], m);
      } else {
        WholeIsMiddle(t, m);
      }
    }
  }

  lemma WholeIsMiddle(t: Text, m: Text)
    requires NotPadded(t) && Pads(t, m)
    ensures m == t
  {
    var i: nat, j: nat :| PadsAt(t, m, i, j);
    assert i == 0 && j == |t|;
  }

  /** The lower case of a character, where it is ASCII: of the capitals and of the Kelvin sign. */
  function LowerChar(c: CodePoint): CodePoint {
    if 65 <= c <= 90 then c + 32 else if c == 0x212A then 107 else c
  }

  function Lower(t: Text): Text {
    if t == [] then [] else [LowerChar(t[0])] + Lower(t[1..])
  }

  /** The upper case of a character, where it is ASCII: of small letters, dotless i, long and sharp s, and ligatures. */
  function UpperChar(c: CodePoint): Text {
    if 97 <= c <= 122 then [c - 32]
    else if c == 0x131 then Lit("I")
    else if c == 0x17F then Lit("S")
    else if c == 0xDF then Lit("SS")
    else if c == 0xFB00 then Lit("FF")
    else if c == 0xFB01 then Lit("FI")
    else if c == 0xFB02 then Lit("FL")
    else if c == 0xFB03 then Lit("FFI")
    else if c == 0xFB04 then Lit("FFL")
    else if c == 0xFB05 || c == 0xFB06 then Lit("ST")
    else [c]
  }

  function Upper(t: Text): Text {
    if t == [] then [] else UpperChar(t[0]) + Upper(t[1..])
  }

  /** Small letters are their own lower case. */
  lemma {:induction false} LowerOfSmall(t: Text)
    requires forall i :: 0 <= i < |t| ==> 97 <= t[i] <= 122
    ensures Lower(t) == t
  {
    if t != [] {
      assert t == [t[0]] + t[1..];
      LowerOfSmall(t[1..]);
    }
  }

  /** The lower case of `c` is the small letter `l`: it is that letter, its capital, or for k the Kelvin sign. */
  predicate WritesSmall(c: CodePoint, l: CodePoint) {
    c == l || c + 32 == l || (c == 0x212A && l == 107)
  }

  predicate SpellsSmall(t: Text, w: Text) {
    |t| == |w| && forall i :: 0 <= i < |t| ==> WritesSmall(t[i], w[i])
  }

  /** A text has this word of small letters as its lower case exactly if it spells it. */
  lemma {:induction false} LowerSpells(t: Text, w: Text)
    requires forall i :: 0 <= i < |w| ==> 97 <= w[i] <= 122
    ensures Lower(t) == w <==> SpellsSmall(t, w)
  {
    if t != [] && w != [] {
      LowerSpells(t[1..], w[1..]);
      assert w == [w[0]] + w[1..];
      assert Lower(t)[0] == LowerChar(t[0]) && Lower(t)[1..] == Lower(t[1..]);
      assert SpellsSmall(t, w) <==> WritesSmall(t[0], w[0]) && SpellsSmall(t[1..], w[1..]);
    }
  }

  /** `c` is a character whose upper case is the capital `l`: that letter, its small form, dotless i or long s. */
  predicate WritesCapital(c: CodePoint, l: CodePoint) {
    c == l || (65 <= l <= 90 && c == l + 32) || (c == 0x131 && l == 73) || (c == 0x17F && l == 83)
  }

  predicate SpellsCapital(t: Text, w: Text) {
    |t| == |w| && forall i :: 0 <= i < |t| ==> WritesCapital(t[i], w[i])
  }

  /** The pairs of capitals that are the upper case of one character: SS, ST, FF, FI and FL. */
  predicate Ligature(a: CodePoint, b: CodePoint) {
    (a == 83 && (b == 83 || b == 84)) || (a == 70 && (b == 70 || b == 73 || b == 76))
  }

  predicate PlainCapitals(w: Text) {
    && (forall i :: 0 <= i < |w| ==> 65 <= w[i] <= 90 || w[i] == 95)
    && (forall i :: 0 <= i < |w| - 1 ==> !Ligature(w[i], w[i + 1]))
  }

  /** One character with a capital, or an underscore, as its upper case. */
  lemma CapitalOf(c: CodePoint, l: CodePoint)
    requires 65 <= l <= 90 || l == 95
    ensures UpperChar(c) != []
    ensures UpperChar(c) == [l] <==> WritesCapital(c, l)
    ensures |UpperChar(c)| > 1 ==> Ligature(UpperChar(c)[0], UpperChar(c)[1])
  {
    assert Lit("I") == [73] && Lit("S") == [83];
  }

  lemma SplitOne(first: Text, rest: Text, w: Text)
    requires |first| == 1
    ensures first + rest == w <==> w != [] && first == [w[0]] && rest == w[1..]
  {
    if w != [] {
      assert w == [w[0]] + w[1..];
      assert (first + rest)[0] == first[0] && (first + rest)[1..] == rest;
    }
  }

  lemma SpellsFirst(t: Text, w: Text)
    requires t != [] && w != []
    ensures SpellsCapital(t, w) <==> WritesCapital(t[0], w[0]) && SpellsCapital(t[1..], w[1..])
  {
  }

  lemma LigatureStarts(first: Text, rest: Text, w: Text)
    requires |first| > 1 && first + rest == w
    ensures |w| > 1 && w[0] == first[0] && w[1] == first[1]
  {
  }

  /** A text has such a word of capitals as its upper case exactly if it spells it. */
  lemma {:induction false} UpperSpells(t: Text, w: Text)
    requires PlainCapitals(w)
    ensures Upper(t) == w <==> SpellsCapital(t, w)
  {
    if t != [] && w != [] {
      CapitalOf(t[0], w[0]);
      SpellsFirst(t, w);
      if |UpperChar(t[0])| > 1 {
        if Upper(t) == w {
          LigatureStarts(UpperChar(t[0]), Upper(t[1..]), w);
        }
      } else {
        UpperSpells(t[1..], w[1..]);
        SplitOne(UpperChar(t[0]), Upper(t[1..]), w);
      }
    } else if t != [] {
      CapitalOf(t[0], 65);
    }
  }

  /** The first two capitals may also be written as the ligature of s and t. */
  predicate SpellsWithLigature(t: Text, w: Text) {
    || SpellsCapital(t, w)
    || (t != [] && (t[0] == 0xFB05 || t[0] == 0xFB06) && |w| >= 2 && w[0] == 83 && w[1] == 84
        && SpellsCapital(t[1..], w[2..]))
  }

  /** The same of a word that may begin with S and T. */
  lemma UpperSpellsWithLigature(t: Text, w: Text)
    requires w != [] && (65 <= w[0] <= 90 || w[0] == 95) && PlainCapitals(w[1..])
    requires |w| >= 2 && Ligature(w[0], w[1]) ==> w[0] == 83 && w[1] == 84
    ensures Upper(t) == w <==> SpellsWithLigature(t, w)
  {
    if t != [] {
      if |UpperChar(t[0])| == 1 {
        OneCapital(t, w);
      } else if |w| >= 2 && w[0] == 83 && w[1] == 84 {
        assert w[1..][1..] == w[2..];
        AfterLigature(t, w);
      } else {
        NoLigature(t, w);
      }
    }
  }

  lemma OneCapital(t: Text, w: Text)
    requires t != [] && |UpperChar(t[0])| == 1
    requires w != [] && (65 <= w[0] <= 90 || w[0] == 95) && PlainCapitals(w[1..])
    ensures Upper(t) == w <==> SpellsWithLigature(t, w)
  {
    CapitalOf(t[0], w[0]);
    NotOfST(t[0]);
    SpellsFirst(t, w);
    UpperSpells(t[1..], w[1..]);
    SplitOne(UpperChar(t[0]), Upper(t[1..]), w);
  }

  lemma NoLigature(t: Text, w: Text)
    requires t != [] && |UpperChar(t[0])| > 1 && w != [] && (65 <= w[0] <= 90 || w[0] == 95)
    requires |w| >= 2 ==> !Ligature(w[0], w[1])
    ensures Upper(t) != w && !SpellsWithLigature(t, w)
  {
    CapitalOf(t[0], w[0]);
    SpellsNot(t, w);
    if Upper(t) == w {
      LigatureStarts(UpperChar(t[0]), Upper(t[1..]), w);
    }
  }

  lemma SpellsNot(t: Text, w: Text)
    requires t != [] && w != [] && !WritesCapital(t[0], w[0])
    ensures !SpellsCapital(t, w)
  {
  }

  lemma NotOfST(c: CodePoint)
    requires |UpperChar(c)| == 1
    ensures c != 0xFB05 && c != 0xFB06
  {
  }

  /** Only the ligatures of s and t become S and T. */
  lemma LigatureOfST(c: CodePoint)
    requires |UpperChar(c)| > 1
    ensures UpperChar(c)[..2] == [83, 84] <==> c == 0xFB05 || c == 0xFB06
    ensures c == 0xFB05 || c == 0xFB06 ==> UpperChar(c) == [83, 84]
  {
    assert UpperChar(c)[0] == 83 ==> c == 0xDF || c == 0xFB05 || c == 0xFB06;
    assert UpperChar(0xDF)[1] == 83;
    assert Lit("ST") == [83, 84];
  }

  lemma AfterLigature(t: Text, w: Text)
    requires t != [] && |UpperChar(t[0])| > 1
    requires |w| >= 2 && w[0] == 83 && w[1] == 84 && PlainCapitals(w[2..])
    ensures Upper(t) == w <==> SpellsWithLigature(t, w)
  {
    CapitalOf(t[0], w[0]);
    LigatureOfST(t[0]);
    UpperSpells(t[1..], w[2..]);
    SpellsNot(t, w);
    assert w[..2] == [83, 84];
    SplitTwo(UpperChar(t[0]), Upper(t[1..]), w);
  }

  lemma SplitTwo(first: Text, rest: Text, w: Text)
    requires |first| >= 2 && |w| >= 2
    ensures first + rest == w ==> first[..2] == w[..2]
    ensures |first| == 2 ==> (first + rest == w <==> first == w[..2] && rest == w[2..])
  {
    assert w == w[..2] + w[2..];
    assert (first + rest)[..2] == first[..2];
    assert |first| == 2 ==> (first + rest)[2..] == rest;
  }

  /** Capitals and underscores are their own upper case. */
  lemma {:induction false} UpperOfCapitals(t: Text)
    requires forall i :: 0 <= i < |t| ==> 65 <= t[i] <= 90 || t[i] == 95
    ensures Upper(t) == t
  {
    if t != [] {
      assert t == [t[0]] + t[1..];
      UpperOfCapitals(t[1..]);
    }
  }
}
