/**
 * `StringUtils.delimitedListToStringArray(text, ";")`, as the initializer uses
 * it: the pieces of the text between occurrences of a one-character
 * delimiter, with no piece for an empty text.
 */
module Delimited {

  /** The number of occurrences of `d` in `s`. */
  function Count(s: string, d: char): nat {
    if s == [] then 0 else (if s[0] == d then 1 else 0) + Count(s[1..], d)
  }

  /** The pieces of `s` between occurrences of `d`: one more piece than there
      are delimiters, none of them containing the delimiter. */
  function Fields(s: string, d: char): (r: seq<string>)
    ensures |r| == Count(s, d) + 1
    ensures forall k :: 0 <= k < |r| ==> d !in r[k]
  {
    if s == [] then [[]]
    else
      var rest := Fields(s[1..], d);
      if s[0] == d then [[]] + rest else [[s[0]] + rest[0]] + rest[1..]
  }

  /** The pieces put back together with `d` between neighbours. */
  function Join(pieces: seq<string>, d: char): string
    decreases |pieces|
  {
    if pieces == [] then []
    else if |pieces| == 1 then pieces[0]
    else pieces[0] + [d] + Join(pieces[1..], d)
  }

  /** Joining the pieces gives the text back. */
  lemma {:induction false} JoinFields(s: string, d: char)
    ensures Join(Fields(s, d), d) == s
  {
    if s != [] {
      var rest := Fields(s[1..], d);
      JoinFields(s[1..], d);
      if s[0] == d {
        assert ([[]] + rest)[1..] == rest;
      } else if |rest| > 1 {
        var r := [[s[0]] + rest[0]] + rest[1..];
        assert r[1..] == rest[1..];
        assert Join(rest, d) == rest[0] + [d] + Join(rest[1..], d);
      }
    }
  }

  /** A text without the delimiter is a single piece. */
  lemma {:induction false} FieldsOfFree(p: string, d: char)
    requires d !in p
    ensures Fields(p, d) == [p]
  {
    if p != [] {
      assert p[0] != d by { assert p[0] in p; }
      FieldsOfFree(p[1..], d);
      assert [p[0]] + p[1..] == p;
    }
  }

  /** A delimiter-free prefix followed by the delimiter is the first piece. */
  lemma {:induction false} FieldsAfterPiece(p: string, d: char, t: string)
    requires d !in p
    ensures Fields(p + [d] + t, d) == [p] + Fields(t, d)
  {
    if p == [] {
      assert p + [d] + t == [d] + t;
      assert ([d] + t)[1..] == t;
    } else {
      assert (p + [d] + t)[1..] == p[1..] + [d] + t;
      assert p[0] != d by { assert p[0] in p; }
      FieldsAfterPiece(p[1..], d, t);
      assert [p[0]] + p[1..] == p;
    }
  }

  /** Splitting a join of delimiter-free pieces gives the pieces back. */
  lemma {:induction false} FieldsJoin(pieces: seq<string>, d: char)
    requires |pieces| >= 1
    requires forall k :: 0 <= k < |pieces| ==> d !in pieces[k]
    ensures Fields(Join(pieces, d), d) == pieces
  {
    if |pieces| == 1 {
      FieldsOfFree(pieces[0], d);
    } else {
      FieldsJoin(pieces[1..], d);
      FieldsAfterPiece(pieces[0], d, Join(pieces[1..], d));
      assert [pieces[0]] + pieces[1..] == pieces;
    }
  }

  /** `delimitedListToStringArray(s, [d])`: no piece for the empty text,
      otherwise every piece between delimiters, empty ones included. */
  function Split(s: string, d: char): (r: seq<string>)
    ensures |r| == if s == [] then 0 else Count(s, d) + 1
    ensures forall k :: 0 <= k < |r| ==> d !in r[k]
    ensures s != [] ==> Join(r, d) == s
  {
    if s == [] then [] else JoinFields(s, d); Fields(s, d)
  }
}
