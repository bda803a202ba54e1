/**
 * The piece templates of the puzzle engine: every four-letter side string
 * over edge, socket and key, listed the way `allPossibleCombinations`
 * builds them, and the side a template shows a neighbour.
 */
module Templates {

  /** A side of a piece; `X` is the requirement "anything but an edge". */
  datatype SideKind = Edge | Socket | Key | X

  predicate Distinct<T(==)>(s: seq<T>) {
    forall a, b :: 0 <= a < b < |s| ==> s[a] != s[b]
  }

  /** Every letter of `w` from position `from` on is one of `input`. */
  predicate Over(w: seq<SideKind>, input: seq<SideKind>, from: nat) {
    forall j :: from <= j < |w| ==> w[j] in input
  }

  function Pow(b: nat, e: nat): nat {
    if e == 0 then 1 else b * Pow(b, e - 1)
  }

  /**
   * `w` is `cur` followed by letters of `input`, `length` letters in all,
   * and its first new letter is one of the first `i` of `input`.
   */
  ghost predicate Extends(w: seq<SideKind>, input: seq<SideKind>, length: nat, cur: seq<SideKind>, i: nat) {
    |w| == length && |cur| < length && i <= |input|
    && w[..|cur|] == cur && w[|cur|] in input[..i] && Over(w, input, |cur|)
  }

  /**
   * `allPossibleCombinations(input, length, curstr)`: a string of the
   * wanted length is its own only completion; a shorter one is extended by
   * each letter of `input` in turn and the results are concatenated. The
   * result lists every completion of `cur` by letters of `input` and
   * nothing else, `|input|` to the power of the missing length of them,
   * none twice when `input` has no letter twice.
   */
  method AllPossibleCombinations(input: seq<SideKind>, length: nat, cur: seq<SideKind>) returns (res: seq<seq<SideKind>>)
    requires |cur| <= length
    ensures |res| == Pow(|input|, length - |cur|)
    ensures Distinct(input) ==> Distinct(res)
    ensures forall w :: w in res <==> |w| == length && w[..|cur|] == cur && Over(w, input, |cur|)
    decreases length - |cur|
  {
    if |cur| == length {
      res := [cur];
      forall w | |w| == length && w[..|cur|] == cur
        ensures w == cur
      {
        assert w == w[..|cur|];
      }
      return;
    }
    res := [];
    for i := 0 to |input|
      invariant |res| == i * Pow(|input|, length - |cur| - 1)
      invariant Distinct(input) ==> Distinct(res)
      invariant forall w :: w in res <==> Extends(w, input, length, cur, i)
    {
      var more := AllPossibleCombinations(input, length, cur + [input[i]]);
      ExtendStep(input, length, cur, i, res, more);
      res := res + more;
    }
    forall w
      ensures Extends(w, input, length, cur, |input|) <==> |w| == length && w[..|cur|] == cur && Over(w, input, |cur|)
    {
      assert input[..|input|] == input;
    }
  }

  /** Appending the completions through letter `i` keeps the loop's account of what is listed. */
  lemma ExtendStep(input: seq<SideKind>, length: nat, cur: seq<SideKind>, i: nat,
                   res: seq<seq<SideKind>>, more: seq<seq<SideKind>>)
    requires |cur| < length && i < |input|
    requires |res| == i * Pow(|input|, length - |cur| - 1)
    requires Distinct(input) ==> Distinct(res)
    requires forall w :: w in res <==> Extends(w, input, length, cur, i)
    requires |more| == Pow(|input|, length - |cur + [input[i]]|)
    requires Distinct(input) ==> Distinct(more)
    requires forall w :: w in more <==> |w| == length && w[..|cur + [input[i]]|] == cur + [input[i]] && Over(w, input, |cur + [input[i]]|)
    ensures |res + more| == (i + 1) * Pow(|input|, length - |cur| - 1)
    ensures Distinct(input) ==> Distinct(res + more)
    ensures forall w :: w in res + more <==> Extends(w, input, length, cur, i + 1)
  {
    var p := Pow(|input|, length - |cur| - 1);
    assert |cur + [input[i]]| == |cur| + 1;
    assert |res + more| == i * p + p;
    assert (i + 1) * p == i * p + p;
    ExtendMembers(input, length, cur, i, res, more);
    if Distinct(input) {
      ExtendDisjoint(input, length, cur, i, res, more);
      DistinctAppend(res, more);
    }
  }

  /** The completions through letter `i`, then those with letter `i` next, are the completions through letter `i + 1`. */
  lemma ExtendMembers(input: seq<SideKind>, length: nat, cur: seq<SideKind>, i: nat,
                      res: seq<seq<SideKind>>, more: seq<seq<SideKind>>)
    requires |cur| < length && i < |input|
    requires forall w :: w in res <==> Extends(w, input, length, cur, i)
    requires forall w :: w in more <==> |w| == length && w[..|cur + [input[i]]|] == cur + [input[i]] && Over(w, input, |cur + [input[i]]|)
    ensures forall w :: w in res + more <==> Extends(w, input, length, cur, i + 1)
  {
    var c := input[i];
    assert input[..i + 1] == input[..i] + [c];
    forall w
      ensures w in res + more <==> Extends(w, input, length, cur, i + 1)
    {
      assert w in res + more <==> w in res || w in more;
      if |w| == length {
        OneLetterMore(w, input, cur, c);
        assert w[|cur|] in input[..i] + [c] <==> w[|cur|] in input[..i] || w[|cur|] == c;
      }
    }
  }

  /** `w` extends `cur + [c]` exactly when it extends `cur` with `c` next. */
  lemma OneLetterMore(w: seq<SideKind>, input: seq<SideKind>, cur: seq<SideKind>, c: SideKind)
    requires |cur| < |w| && c in input
    ensures w[..|cur| + 1] == cur + [c] && Over(w, input, |cur| + 1) <==> w[..|cur|] == cur && w[|cur|] == c && Over(w, input, |cur|)
  {
    var n := |cur|;
    if w[..n] == cur && w[n] == c {
      assert w[..n + 1] == w[..n] + [w[n]];
    }
    if w[..n + 1] == cur + [c] {
      assert w[..n] == w[..n + 1][..n];
      assert w[n] == w[..n + 1][n];
    }
  }

  /** The completions through letter `i` and those with letter `i` next share no string. */
  lemma ExtendDisjoint(input: seq<SideKind>, length: nat, cur: seq<SideKind>, i: nat,
                       res: seq<seq<SideKind>>, more: seq<seq<SideKind>>)
    requires |cur| < length && i < |input| && Distinct(input)
    requires forall w :: w in res <==> Extends(w, input, length, cur, i)
    requires forall w :: w in more <==> |w| == length && w[..|cur + [input[i]]|] == cur + [input[i]] && Over(w, input, |cur + [input[i]]|)
    ensures forall a, b :: 0 <= a < |res| && 0 <= b < |more| ==> res[a] != more[b]
  {
    var c := input[i];
    var n := |cur|;
    assert c !in input[..i];
    forall a, b | 0 <= a < |res| && 0 <= b < |more|
      ensures res[a] != more[b]
    {
      assert res[a] in res && more[b] in more;
      assert more[b][..n + 1][n] == c;
    }
  }

  lemma DistinctAppend<T>(s: seq<T>, t: seq<T>)
    requires Distinct(s) && Distinct(t)
    requires forall a, b :: 0 <= a < |s| && 0 <= b < |t| ==> s[a] != t[b]
    ensures Distinct(s + t)
  {
    var u := s + t;
    forall a, b | 0 <= a < b < |u|
      ensures u[a] != u[b]
    {
      if b < |s| {
        assert u[a] == s[a] && u[b] == s[b];
      } else if a >= |s| {
        assert u[a] == t[a - |s|] && u[b] == t[b - |s|];
      } else {
        assert u[a] == s[a] && u[b] == t[b - |s|];
      }
    }
  }

  /** The three sides a finished piece can have, in the engine's order. */
  const PossibleSides: seq<SideKind> := [Edge, Socket, Key]

  /** A piece template: its side string, top, right, bottom, left. */
  datatype Template = Template(sides: seq<SideKind>)

  /** `opposite(idx)`: the side facing a neighbour that lies in direction `idx`. */
  function Opposite(t: Template, idx: nat): SideKind
    requires |t.sides| == 4
  {
    t.sides[(idx + 2) % 4]
  }

  /** The neighbour above sees the bottom, the one to the right the left side, and so on. */
  lemma OppositeFaces(t: Template)
    requires |t.sides| == 4
    ensures Opposite(t, 0) == t.sides[2] && Opposite(t, 1) == t.sides[3]
    ensures Opposite(t, 2) == t.sides[0] && Opposite(t, 3) == t.sides[1]
  {
  }

  /** A finished side string: four sides, each an edge, a socket or a key. */
  predicate Shape(w: seq<SideKind>) {
    |w| == 4 && forall j :: 0 <= j < 4 ==> w[j] != X
  }

  /** The engine's three sides, listed without naming the constant. */
  predicate ThreeSides(input: seq<SideKind>) {
    |input| == 3 && input[0] == Edge && input[1] == Socket && input[2] == Key
  }

  lemma ShapeOver(w: seq<SideKind>, input: seq<SideKind>)
    requires ThreeSides(input)
    ensures Shape(w) <==> |w| == 4 && Over(w, input, 0)
  {
  }

  /** 81 templates, no two alike, one for every finished side string. */
  ghost predicate AllPieceTemplates(ts: seq<Template>) {
    |ts| == 81 && Distinct(ts) && forall w :: Template(w) in ts <==> Shape(w)
  }

  /**
   * `generateAllPossiblePieceTemplates`: one template per string of
   * `allPossibleCombinations([EDGE, SOCKET, KEY], 4)`; there are 81, no
   * two alike, and every finished side string has its template.
   */
  method GenerateAllPossiblePieceTemplates() returns (ts: seq<Template>)
    ensures AllPieceTemplates(ts)
  {
    var combos := AllPossibleCombinations(PossibleSides, 4, []);
    ts := TemplatesOf(combos);
    AllTemplates(PossibleSides, combos);
  }

  /** The templates of every four-letter string over edge, socket and key. */
  lemma AllTemplates(input: seq<SideKind>, combos: seq<seq<SideKind>>)
    requires ThreeSides(input) && |combos| == Pow(3, 4) && Distinct(combos)
    requires forall w :: w in combos <==> |w| == 4 && w[..0] == [] && Over(w, input, 0)
    ensures AllPieceTemplates(TemplatesOf(combos))
  {
    assert Pow(3, 4) == 81 by {
      assert Pow(3, 2) == 9;
    }
    TemplatesOfMeaning(combos);
    var ts := TemplatesOf(combos);
    forall w
      ensures Template(w) in ts <==> Shape(w)
    {
      assert Template(w) in ts <==> w in combos;
      assert w[..0] == [];
      ShapeOver(w, input);
    }
  }

  /** `map(createPieceTemplate)`: one template per side string, in order. */
  function TemplatesOf(combos: seq<seq<SideKind>>): seq<Template> {
    seq(|combos|, i requires 0 <= i < |combos| => Template(combos[i]))
  }

  lemma TemplatesOfMeaning(combos: seq<seq<SideKind>>)
    ensures var ts := TemplatesOf(combos);
            |ts| == |combos| && (Distinct(combos) ==> Distinct(ts))
            && forall w :: Template(w) in ts <==> w in combos
  {
    var ts := TemplatesOf(combos);
    forall w
      ensures Template(w) in ts <==> w in combos
    {
      if w in combos {
        var i :| 0 <= i < |combos| && combos[i] == w;
        assert ts[i] == Template(w);
      }
      if Template(w) in ts {
        var i :| 0 <= i < |ts| && ts[i] == Template(w);
        assert combos[i] == w;
      }
    }
  }
}
