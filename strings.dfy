/** The JavaScript string operations the dashboard relies on:
    `String.prototype.split` with a one-character separator, `includes`
    and `trim`. Strings are sequences of code points. */
module Strings {

  /** Number of occurrences of `c` in `s`. */
  function Count(s: string, c: char): nat
  {
    if s == [] then 0 else (if s[0] == c then 1 else 0) + Count(s[1..], c)
  }

  /** The parts joined back together with `sep` between them
      (`Array.prototype.join`). */
  function Join(parts: seq<string>, sep: char): string
    requires |parts| >= 1
  {
    if |parts| == 1 then parts[0] else parts[0] + [sep] + Join(parts[1..], sep)
  }

  /** `s.split(sep)`: the maximal runs between separators, empty runs kept.
      There is one more part than there are separators, and no part holds
      a separator. */
  function Split(s: string, sep: char): (parts: seq<string>)
    ensures |parts| == Count(s, sep) + 1
    ensures forall i :: 0 <= i < |parts| ==> sep !in parts[i]
  {
    if s == [] then [""]
    else
      var rest := Split(s[1..], sep);
      if s[0] == sep then [""] + rest
      else [[s[0]] + rest[0]] + rest[1..]
  }

  /** Joining the parts with the separator gives the string back. */
  lemma {:induction false} JoinSplit(s: string, sep: char)
    ensures Join(Split(s, sep), sep) == s
  {
    if s != [] {
      var rest := Split(s[1..], sep);
      JoinSplit(s[1..], sep);
      var parts := Split(s, sep);
      if s[0] == sep {
        assert parts[1..] == rest;
      } else {
        assert parts[1..] == rest[1..];
        assert |rest| > 1 ==> Join(rest, sep) == rest[0] + [sep] + Join(rest[1..], sep);
        assert Join(parts, sep) == [s[0]] + Join(rest, sep);
      }
      assert [s[0]] + s[1..] == s;
    }
  }

  /** The first part is the prefix of `s` before its first separator. */
  lemma {:induction false} SplitFirst(s: string, sep: char)
    ensures Split(s, sep)[0] <= s
    ensures |Split(s, sep)[0]| < |s| ==> s[|Split(s, sep)[0]|] == sep
  {
    if s != [] && s[0] != sep {
      SplitFirst(s[1..], sep);
    }
  }

  /** A run without separators splits into itself. */
  lemma {:induction false} SplitNoSep(x: string, sep: char)
    requires sep !in x
    ensures Split(x, sep) == [x]
  {
    if x != [] {
      SplitNoSep(x[1..], sep);
      assert [x[0]] + x[1..] == x;
    }
  }

  /** Splitting `x sep y`, where `x` holds no separator, yields `x` and then
      the parts of `y`. */
  lemma {:induction false} SplitAfterPrefix(x: string, sep: char, y: string)
    requires sep !in x
    ensures Split(x + [sep] + y, sep) == [x] + Split(y, sep)
  {
    if x == [] {
      assert x + [sep] + y == [sep] + y;
      assert ([sep] + y)[1..] == y;
    } else {
      assert (x + [sep] + y)[1..] == x[1..] + [sep] + y;
      SplitAfterPrefix(x[1..], sep, y);
      assert [x[0]] + x[1..] == x;
    }
  }

  /** Split inverts Join on separator-free parts. */
  lemma {:induction false} SplitJoin(parts: seq<string>, sep: char)
    requires |parts| >= 1
    requires forall i :: 0 <= i < |parts| ==> sep !in parts[i]
    ensures Split(Join(parts, sep), sep) == parts
  {
    if |parts| == 1 {
      SplitNoSep(parts[0], sep);
    } else {
      SplitJoin(parts[1..], sep);
      SplitAfterPrefix(parts[0], sep, Join(parts[1..], sep));
      assert [parts[0]] + parts[1..] == parts;
    }
  }

  /** No two separators stand next to each other in `s`. */
  predicate NoAdjacent(s: string, sep: char)
  {
    forall i :: 0 <= i < |s| - 1 ==> !(s[i] == sep && s[i + 1] == sep)
  }

  /** The first part is empty exactly when `s` is empty or starts with `sep`. */
  lemma SplitFirstEmpty(s: string, sep: char)
    ensures Split(s, sep)[0] == [] <==> s == [] || s[0] == sep
  {
  }

  /** No part is empty (`parts.every(Boolean)`). */
  predicate AllNonEmpty(parts: seq<string>)
  {
    forall i :: 0 <= i < |parts| ==> parts[i] != []
  }

  /** No part after the first is empty. */
  predicate TailNonEmpty(parts: seq<string>)
  {
    forall i :: 1 <= i < |parts| ==> parts[i] != []
  }

  /** `NoAdjacent` checked one position at a time, from the front. */
  lemma NoAdjacentCons(s: string, sep: char)
    requires |s| >= 2
    ensures NoAdjacent(s, sep) <==> !(s[0] == sep && s[1] == sep) && NoAdjacent(s[1..], sep)
  {
    var t := s[1..];
    if NoAdjacent(s, sep) {
      forall i | 0 <= i < |t| - 1
        ensures !(t[i] == sep && t[i + 1] == sep)
      {
        assert t[i] == s[i + 1] && t[i + 1] == s[i + 2];
      }
    }
    if !(s[0] == sep && s[1] == sep) && NoAdjacent(t, sep) {
      forall i | 0 <= i < |s| - 1
        ensures !(s[i] == sep && s[i + 1] == sep)
      {
        if i > 0 {
          assert s[i] == t[i - 1] && s[i + 1] == t[i];
        }
      }
    }
  }

  /** Every part after the first is non-empty exactly when `s` is empty, or
      does not end with `sep` and has no two adjacent separators. */
  lemma {:induction false} SplitTailNonEmpty(s: string, sep: char)
    ensures TailNonEmpty(Split(s, sep)) <==> (s == [] || (s[|s| - 1] != sep && NoAdjacent(s, sep)))
  {
    if |s| == 1 {
      var parts := Split(s, sep);
      assert Split(s[1..], sep) == [""];
      if s[0] == sep {
        assert parts == ["", ""] && parts[1] == [];
      } else {
        assert |parts| == 1;
      }
    } else if |s| >= 2 {
      var t := s[1..];
      SplitTailNonEmpty(t, sep);
      SplitFirstEmpty(t, sep);
      SplitTailCons(s, sep);
      NoAdjacentCons(s, sep);
      assert s[|s| - 1] == t[|t| - 1];
    }
  }

  /** The parts after the first of `s`, in terms of those of `s[1..]`. */
  lemma SplitTailCons(s: string, sep: char)
    requires |s| >= 1
    ensures s[0] == sep ==>
      (TailNonEmpty(Split(s, sep)) <==> Split(s[1..], sep)[0] != [] && TailNonEmpty(Split(s[1..], sep)))
    ensures s[0] != sep ==> (TailNonEmpty(Split(s, sep)) <==> TailNonEmpty(Split(s[1..], sep)))
  {
    var rest := Split(s[1..], sep);
    var parts := Split(s, sep);
    if s[0] == sep {
      assert parts == [""] + rest;
      assert forall i :: 1 <= i < |parts| ==> parts[i] == rest[i - 1];
      assert forall j :: 0 <= j < |rest| ==> rest[j] == parts[j + 1];
    } else {
      assert parts == [[s[0]] + rest[0]] + rest[1..];
      assert forall i :: 1 <= i < |parts| ==> parts[i] == rest[i];
    }
  }


  /** Every part is non-empty exactly when `s` neither starts nor ends with
      `sep` and has no two adjacent separators. */
  lemma SplitAllNonEmpty(s: string, sep: char)
    ensures AllNonEmpty(Split(s, sep))
        <==> (s != [] && s[0] != sep && s[|s| - 1] != sep && NoAdjacent(s, sep))
  {
    SplitFirstEmpty(s, sep);
    SplitTailNonEmpty(s, sep);
  }

  /** `sub` occurs in `s` starting at index `i`. */
  predicate OccursAt(s: string, sub: string, i: int)
  {
    0 <= i && i + |sub| <= |s| && s[i..i + |sub|] == sub
  }

  /** `s.includes(sub)`: `sub` occurs somewhere in `s`. */
  function Contains(s: string, sub: string): (r: bool)
    ensures r <==> exists i :: OccursAt(s, sub, i)
  {
    if |sub| > |s| then false
    else if s[..|sub|] == sub then assert OccursAt(s, sub, 0); true
    else
      var r := Contains(s[1..], sub);
      assert forall i :: OccursAt(s[1..], sub, i) <==> OccursAt(s, sub, i + 1) by {
        forall i ensures OccursAt(s[1..], sub, i) <==> OccursAt(s, sub, i + 1) {
          if 0 <= i && i + |sub| <= |s[1..]| {
            assert s[1..][i..i + |sub|] == s[i + 1..i + 1 + |sub|];
          }
        }
      }
      assert (exists i :: OccursAt(s, sub, i)) ==> exists i :: OccursAt(s[1..], sub, i) by {
        if exists i :: OccursAt(s, sub, i) {
          var i :| OccursAt(s, sub, i);
          assert i != 0;
          assert OccursAt(s[1..], sub, i - 1);
        }
      }
      r
  }

  /** The code points ECMAScript's `trim` removes: WhiteSpace (tab, vertical
      tab, form feed, space, no-break space, byte order mark and the other
      space separators) and LineTerminator. */
  predicate IsWhiteSpace(c: char)
  {
    || c == '\t' || c == '\n' || c == '\U{000B}' || c == '\U{000C}' || c == '\r'
    || c == ' ' || c == '\U{00A0}' || c == '\U{1680}'
    || ('\U{2000}' <= c <= '\U{200A}')
    || c == '\U{2028}' || c == '\U{2029}' || c == '\U{202F}' || c == '\U{205F}'
    || c == '\U{3000}' || c == '\U{FEFF}'
  }

  /** `s` with its leading white space removed. */
  function TrimStart(s: string): (r: string)
    ensures |r| <= |s| && r == s[|s| - |r|..]
    ensures forall k :: 0 <= k < |s| - |r| ==> IsWhiteSpace(s[k])
    ensures r == [] || !IsWhiteSpace(r[0])
  {
    if s != [] && IsWhiteSpace(s[0]) then TrimStart(s[1..]) else s
  }

  /** `s` with its trailing white space removed. */
  function TrimEnd(s: string): (r: string)
    ensures |r| <= |s| && r == s[..|r|]
    ensures forall k :: |r| <= k < |s| ==> IsWhiteSpace(s[k])
    ensures r == [] || !IsWhiteSpace(r[|r| - 1])
  {
    if s != [] && IsWhiteSpace(s[|s| - 1]) then TrimEnd(s[..|s| - 1]) else s
  }

  /** `s.trim()`: the slice of `s` left once white space is removed from
      both ends. */
  function Trim(s: string): (r: string)
    ensures |r| <= |s|
    ensures r == [] || (!IsWhiteSpace(r[0]) && !IsWhiteSpace(r[|r| - 1]))
  {
    TrimStart(TrimEnd(s))
  }

  /** What `trim` removes is white space at either end, and nothing else:
      the result is a slice of the input with only blanks around it. */
  lemma TrimSlice(s: string)
    ensures exists i, j ::
      && 0 <= i <= j <= |s| && Trim(s) == s[i..j]
      && (forall k :: 0 <= k < i ==> IsWhiteSpace(s[k]))
      && (forall k :: j <= k < |s| ==> IsWhiteSpace(s[k]))
  {
    var e := TrimEnd(s);
    var r := TrimStart(e);
    var i := |e| - |r|;
    assert e == s[..|e|];
    assert r == s[i..|e|];
    assert forall k :: 0 <= k < i ==> s[k] == e[k];
  }

  /** Trimming a text that ends in a non-blank character removes exactly the
      white space appended to it. */
  lemma {:induction false} TrimEndPadded(x: string, post: string)
    requires x != [] && !IsWhiteSpace(x[|x| - 1])
    requires forall k :: 0 <= k < |post| ==> IsWhiteSpace(post[k])
    ensures TrimEnd(x + post) == x
  {
    if post == [] {
      assert x + post == x;
    } else {
      var s := x + post;
      assert s[|s| - 1] == post[|post| - 1];
      assert s[..|s| - 1] == x + post[..|post| - 1];
      TrimEndPadded(x, post[..|post| - 1]);
    }
  }

  /** Trimming a text that starts with a non-blank character removes exactly
      the white space put before it. */
  lemma {:induction false} TrimStartPadded(pre: string, x: string)
    requires x != [] && !IsWhiteSpace(x[0])
    requires forall k :: 0 <= k < |pre| ==> IsWhiteSpace(pre[k])
    ensures TrimStart(pre + x) == x
  {
    if pre == [] {
      assert pre + x == x;
    } else {
      var s := pre + x;
      assert s[0] == pre[0];
      assert s[1..] == pre[1..] + x;
      TrimStartPadded(pre[1..], x);
    }
  }

  /** `trim` removes exactly the white space around a text whose ends are
      not blank. */
  lemma TrimPadded(pre: string, x: string, post: string)
    requires x != [] && !IsWhiteSpace(x[0]) && !IsWhiteSpace(x[|x| - 1])
    requires forall k :: 0 <= k < |pre| ==> IsWhiteSpace(pre[k])
    requires forall k :: 0 <= k < |post| ==> IsWhiteSpace(post[k])
    ensures Trim(pre + x + post) == x
  {
    var px := pre + x;
    assert px[|px| - 1] == x[|x| - 1];
    TrimEndPadded(px, post);
    TrimStartPadded(pre, x);
  }
}
