/**
 * Game.get_coords and the transcript split of Game.play: algebraic tokens
 * such as "a2-a3" or "b2xc3" become pairs of grid coordinates. A token that
 * Python would reject (wrong number of pieces after split, a piece shorter
 * than two characters, a rank that is not a digit) gives None.
 */
module Notation {
  import opened Options
  import opened Rules

  /** Number of occurrences of d in s. */
  function Occurrences(s: string, d: char): nat {
    if s == [] then 0 else (if s[0] == d then 1 else 0) + Occurrences(s[1..], d)
  }

  /** str.join: the parts with d between consecutive ones. */
  function Join(parts: seq<string>, d: char): string
    requires |parts| >= 1
  {
    if |parts| == 1 then parts[0] else parts[0] + [d] + Join(parts[1..], d)
  }

  /**
   * str.split(d): the pieces of s between occurrences of d. There is one
   * piece more than there are separators, no piece holds d, and joining the
   * pieces gives s back.
   */
  function Split(s: string, d: char): (parts: seq<string>)
    ensures |parts| == Occurrences(s, d) + 1
    ensures forall i :: 0 <= i < |parts| ==> d !in parts[i]
    ensures Join(parts, d) == s
  {
    if s == [] then [""]
    else
      var rest := Split(s[1..], d);
      if s[0] == d then [""] + rest
      else
        assert [s[0]] + Join(rest, d) == s;
        [[s[0]] + rest[0]] + rest[1..]
  }

  /** Splitting a join of separator-free parts gives the parts back. */
  lemma {:induction false} SplitJoin(parts: seq<string>, d: char)
    requires |parts| >= 1
    requires forall i :: 0 <= i < |parts| ==> d !in parts[i]
    ensures Split(Join(parts, d), d) == parts
  {
    var j := Join(parts, d);
    var q := Split(j, d);
    SplitUnique(q, parts, d);
  }

  /** Two separator-free splittings with the same join are equal. */
  lemma {:induction false} SplitUnique(p: seq<string>, q: seq<string>, d: char)
    requires |p| >= 1 && |q| >= 1
    requires forall i :: 0 <= i < |p| ==> d !in p[i]
    requires forall i :: 0 <= i < |q| ==> d !in q[i]
    requires Join(p, d) == Join(q, d)
    ensures p == q
    decreases |Join(p, d)|
  {
    var jp, jq := Join(p, d), Join(q, d);
    if |p| == 1 || |q| == 1 {
      // a single part holds no separator, a join of two or more does
      if |p| != |q| {
        assert false;
      }
    } else {
      SepPosition(p, d);
      SepPosition(q, d);
      // the first separator sits right after the first part in both joins
      if |p[0]| != |q[0]| {
        assert false;
      }
      assert p[0] == jp[..|p[0]|] == jq[..|q[0]|] == q[0];
      assert Join(p[1..], d) == jp[|p[0]| + 1..] == jq[|q[0]| + 1..] == Join(q[1..], d);
      SplitUnique(p[1..], q[1..], d);
    }
  }

  /** In a join of at least two parts the first separator follows the first part. */
  lemma SepPosition(p: seq<string>, d: char)
    requires |p| >= 2
    ensures Join(p, d) == p[0] + [d] + Join(p[1..], d)
    ensures |Join(p, d)| > |p[0]| && Join(p, d)[|p[0]|] == d
    ensures Join(p, d)[..|p[0]|] == p[0]
    ensures Join(p, d)[|p[0]| + 1..] == Join(p[1..], d)
  {
  }

  predicate IsDigit(c: char) { '0' <= c <= '9' }

  /** One half of a token: the file is ord(part[0]) - ord('a'), the row 8 - int(part[1]). */
  function ParseSquare(part: string): Option<Coord> {
    if |part| < 2 || !IsDigit(part[1]) then None
    else Some(Coord(part[0] as int - 'a' as int, 8 - (part[1] as int - '0' as int)))
  }

  /** 'x' is the separator when the token holds one, '-' otherwise. */
  function Separator(token: string): char {
    if 'x' in token then 'x' else '-'
  }

  /**
   * get_coords. The token must hold its separator exactly once (the two-way
   * unpacking of split), and so is at least five characters long.
   */
  function ParseMove(token: string): (r: Option<Ply>)
    ensures Occurrences(token, Separator(token)) != 1 ==> r.None?
    ensures r.Some? ==> |token| >= 5
  {
    var sep := Separator(token);
    var parts := Split(token, sep);
    if |parts| != 2 then None
    else
      assert token == Join(parts, sep) == parts[0] + [sep] + parts[1];
      match (ParseSquare(parts[0]), ParseSquare(parts[1]))
      case (Some(a), Some(b)) => Some(Ply(a, b))
      case _ => None
  }

  /**
   * get_coords on a token made of two halves around its separator. The
   * result is None exactly when a half is shorter than two characters or its
   * second character is not a digit (IndexError and ValueError in Python);
   * otherwise each half maps its first character f to ord(f) - ord('a') and
   * its second r to 8 - r, whatever follows in the half.
   */
  lemma ParseHalves(p0: string, p1: string, sep: char)
    requires sep == '-' || sep == 'x'
    requires sep !in p0 && sep !in p1
    requires sep == '-' ==> 'x' !in p0 && 'x' !in p1
    ensures ParseMove(p0 + [sep] + p1) ==
      if |p0| >= 2 && |p1| >= 2 && IsDigit(p0[1]) && IsDigit(p1[1]) then
        Some(Ply(Coord(p0[0] as int - 'a' as int, 8 - (p0[1] as int - '0' as int)),
                 Coord(p1[0] as int - 'a' as int, 8 - (p1[1] as int - '0' as int))))
      else None
  {
    var token := p0 + [sep] + p1;
    assert token[|p0|] == sep;
    if sep == '-' {
      assert 'x' !in token by {
        forall i | 0 <= i < |token| ensures token[i] != 'x' {
          if i < |p0| { assert token[i] == p0[i]; }
          else if i > |p0| { assert token[i] == p1[i - |p0| - 1]; }
        }
      }
    }
    assert Separator(token) == sep;
    assert [p0, p1][1..] == [p1];
    assert Join([p0, p1], sep) == token;
    SplitJoin([p0, p1], sep);
  }

  /**
   * A token letter-digit-separator-letter-digit maps each letter f to
   * ord(f) - ord('a') and each digit r to 8 - r; files a-h and ranks 1-8
   * land on the board.
   */
  lemma ParseAlgebraic(f1: char, r1: char, sep: char, f2: char, r2: char)
    requires sep == '-' || sep == 'x'
    requires f1 != sep && f2 != sep
    requires sep == '-' ==> f1 != 'x' && f2 != 'x'
    requires IsDigit(r1) && IsDigit(r2)
    ensures ParseMove([f1, r1, sep, f2, r2]) ==
      Some(Ply(Coord(f1 as int - 'a' as int, 8 - (r1 as int - '0' as int)),
               Coord(f2 as int - 'a' as int, 8 - (r2 as int - '0' as int))))
    ensures 'a' <= f1 <= 'h' && '1' <= r1 <= '8' && 'a' <= f2 <= 'h' && '1' <= r2 <= '8' ==>
      InBounds(ParseMove([f1, r1, sep, f2, r2]).value.src) &&
      InBounds(ParseMove([f1, r1, sep, f2, r2]).value.dst)
  {
    assert [f1, r1] + [sep] + [f2, r2] == [f1, r1, sep, f2, r2];
    ParseHalves([f1, r1], [f2, r2], sep);
  }

  /** The example from the game's notation: "a2-a3" is a2 (0, 6) to a3 (0, 5). */
  lemma ParseExample()
    ensures ParseMove("a2-a3") == Some(Ply(Coord(0, 6), Coord(0, 5)))
  {
    ParseAlgebraic('a', '2', '-', 'a', '3');
  }

  /** The list comprehension over the tokens: None as soon as one token fails. */
  function ParseAll(tokens: seq<string>): (r: Option<seq<Ply>>)
    ensures r.Some? <==> forall i :: 0 <= i < |tokens| ==> ParseMove(tokens[i]).Some?
    ensures r.Some? ==>
      |r.value| == |tokens| &&
      forall i :: 0 <= i < |tokens| ==> ParseMove(tokens[i]) == Some(r.value[i])
  {
    if tokens == [] then Some([])
    else
      match (ParseMove(tokens[0]), ParseAll(tokens[1..]))
      case (Some(m), Some(ms)) => Some([m] + ms)
      case _ => None
  }

  /** The transcript tokens are separated by ';'. */
  function ParseTranscript(gameStr: string): (r: Option<seq<Ply>>)
    ensures r.Some? ==> |r.value| == Occurrences(gameStr, ';') + 1
  {
    ParseAll(Split(gameStr, ';'))
  }

  /**
   * A transcript written as tokens joined by ';' parses to the tokens'
   * moves, in transcript order.
   */
  lemma ParseJoinedTranscript(tokens: seq<string>)
    requires |tokens| >= 1
    requires forall i :: 0 <= i < |tokens| ==> ';' !in tokens[i] && ParseMove(tokens[i]).Some?
    ensures var r := ParseTranscript(Join(tokens, ';'));
      && r.Some? && |r.value| == |tokens|
      && forall i :: 0 <= i < |tokens| ==> r.value[i] == ParseMove(tokens[i]).value
  {
    SplitJoin(tokens, ';');
  }
}
