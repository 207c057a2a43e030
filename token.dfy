/** The stored sign-in token and its shape check. */
module Token {
  import opened Wrappers
  import opened Strings

  /** `isValidToken(token)`: a token is accepted when it is present, not
      empty, and splitting it on `.` gives exactly three non-empty parts.
      Only the shape is checked: no decoding, signature or expiry. */
  predicate IsValidToken(token: Option<string>)
    ensures IsValidToken(token) ==>
      token.Some? && token.value != [] && token.value[0] != '.' && token.value[|token.value| - 1] != '.'
  {
    match token
    case None => false
    case Some(t) =>
      SplitFirstEmpty(t, '.');
      SplitTailNonEmpty(t, '.');
      t != [] && |Split(t, '.')| == 3 && AllNonEmpty(Split(t, '.'))
  }

  /** The shape check, stated without Split: exactly two dots, none at
      either end and no two adjacent. */
  lemma ValidTokenShape(t: string)
    ensures IsValidToken(Some(t)) <==>
      && Count(t, '.') == 2
      && t != [] && t[0] != '.' && t[|t| - 1] != '.'
      && NoAdjacent(t, '.')
  {
    SplitAllNonEmpty(t, '.');
  }

  /** Any three non-empty dot-free segments joined by dots form a valid token. */
  lemma ThreeSegmentsValid(a: string, b: string, c: string)
    requires a != [] && b != [] && c != []
    requires '.' !in a && '.' !in b && '.' !in c
    ensures IsValidToken(Some(a + "." + b + "." + c))
  {
    var parts := [a, b, c];
    assert Join(parts, '.') == a + "." + b + "." + c by {
      assert Join(parts[1..], '.') == b + "." + c by {
        assert parts[1..][1..] == [c];
      }
    }
    SplitJoin(parts, '.');
  }

  /** Two dot-free segments are one segment short. */
  lemma TwoSegmentsRejected(a: string, b: string)
    requires '.' !in a && '.' !in b
    ensures !IsValidToken(Some(a + "." + b))
  {
    var parts := [a, b];
    assert Join(parts, '.') == a + "." + b by {
      assert parts[1..] == [b];
    }
    SplitJoin(parts, '.');
  }

  /** Two dots in a row leave an empty segment, wherever they stand. */
  lemma AdjacentDotsRejected(a: string, b: string)
    ensures !IsValidToken(Some(a + ".." + b))
  {
    var t := a + ".." + b;
    assert t[|a|] == '.' && t[|a| + 1] == '.';
    ValidTokenShape(t);
  }

  /** A leading dot leaves the first segment empty. */
  lemma LeadingDotRejected(rest: string)
    ensures !IsValidToken(Some("." + rest))
  {
    SplitFirstEmpty("." + rest, '.');
  }

  /** A well-formed token such as `a.b.c` passes; an absent token and the
      empty string fail. */
  lemma ValidTokenExamples()
    ensures IsValidToken(Some("a.b.c"))
    ensures !IsValidToken(None)
    ensures !IsValidToken(Some(""))
  {
    ThreeSegmentsValid("a", "b", "c");
    assert "a" + "." + "b" + "." + "c" == "a.b.c";
  }

  /** Three typical malformed tokens fail: two segments, an empty middle
      segment and an empty first segment. */
  lemma InvalidTokenExamples()
    ensures !IsValidToken(Some("a.b"))
    ensures !IsValidToken(Some("a..b"))
    ensures !IsValidToken(Some(".b.c"))
  {
    assert !IsValidToken(Some("a.b")) by {
      TwoSegmentsRejected("a", "b");
      assert "a" + "." + "b" == "a.b";
    }
    assert !IsValidToken(Some("a..b")) by {
      AdjacentDotsRejected("a", "b");
      assert "a" + ".." + "b" == "a..b";
    }
    LeadingDotRejected("b.c");
    assert "." + "b.c" == ".b.c";
  }

  /** Browser storage, reduced to its one entry: the value under key `jwt`. */
  class TokenStore {
    var jwt: Option<string>

    constructor (initial: Option<string>)
      ensures jwt == initial
    {
      jwt := initial;
    }
  }
}
