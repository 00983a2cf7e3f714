/** The quote escaping of src/gitMenuCommands.ts, lines 64 and 85:
    `path.split('"').join('\\"')` puts a backslash in front of every double
    quote of the path and leaves every other character alone. */
module Quoting {

  const Quote: char := '"'
  const Backslash: char := '\\'

  /** Number of double quotes in `s`. */
  function CountQuotes(s: string): (n: nat)
    ensures n <= |s|
  {
    if s == [] then 0
    else (if s[0] == Quote then 1 else 0) + CountQuotes(s[1..])
  }

  /** The escaping, character by character: a quote becomes backslash-quote,
      any other character is copied. This is the reference definition; the
      source computes it by splitting and joining (see `JoinSplitIsEscape`). */
  function EscapeQuotes(s: string): (r: string)
    ensures |r| == |s| + CountQuotes(s)
    ensures s != [] ==> r != [] && r[0] != Quote
  {
    if s == [] then []
    else (if s[0] == Quote then [Backslash, Quote] else [s[0]]) + EscapeQuotes(s[1..])
  }

  /** Removes the backslash in front of each backslash-quote pair, scanning
      left to right; every other character is copied. */
  function Unescape(t: string): (r: string)
    ensures |r| <= |t|
  {
    if t == [] then []
    else if |t| >= 2 && t[0] == Backslash && t[1] == Quote then [Quote] + Unescape(t[2..])
    else [t[0]] + Unescape(t[1..])
  }

  /** JavaScript's `String.prototype.split` with a one-character separator:
      the pieces between separators, with an empty piece before a leading
      separator, after a trailing one and between two adjacent ones. */
  function Split(s: string, sep: char): (parts: seq<string>)
    ensures |parts| >= 1
  {
    if s == [] then [[]]
    else
      var rest := Split(s[1..], sep);
      if s[0] == sep then [[]] + rest
      else [[s[0]] + rest[0]] + rest[1..]
  }

  /** JavaScript's `Array.prototype.join`: the parts with `glue` between
      consecutive ones. */
  function Join(parts: seq<string>, glue: string): (r: string)
    ensures |parts| == 1 ==> r == parts[0]
    ensures |parts| >= 2 ==> |r| >= |parts[0]| + |glue| && r[..|parts[0]|] == parts[0]
                             && r[|parts[0]|..|parts[0]| + |glue|] == glue
  {
    if parts == [] then []
    else if |parts| == 1 then parts[0]
    else parts[0] + glue + Join(parts[1..], glue)
  }

  /** The expression the source evaluates, `split('"').join('\\"')`. */
  function SplitJoinEscape(s: string): (r: string)
    ensures r == EscapeQuotes(s)
  {
    JoinSplitIsEscape(s);
    Join(Split(s, Quote), [Backslash, Quote])
  }

  /** Splitting yields one more piece than there are separators, and no piece
      contains the separator. */
  lemma {:induction false} SplitPieces(s: string)
    ensures |Split(s, Quote)| == CountQuotes(s) + 1
    ensures forall k, j :: 0 <= k < |Split(s, Quote)| && 0 <= j < |Split(s, Quote)[k]| ==> Split(s, Quote)[k][j] != Quote
  {
    if s != [] {
      SplitPieces(s[1..]);
    }
  }

  /** Joining with a glue of one element prepends the head piece: the step
      that lets the induction in `JoinSplitIsEscape` go through. */
  lemma {:induction false} JoinConsHead(c: char, parts: seq<string>, glue: string)
    requires |parts| >= 1
    ensures Join([[c] + parts[0]] + parts[1..], glue) == [c] + Join(parts, glue)
  {
    var p := [[c] + parts[0]] + parts[1..];
    assert p[1..] == parts[1..];
    if |parts| == 1 {
    } else {
      assert Join(p, glue) == p[0] + glue + Join(p[1..], glue);
    }
  }

  /** Joining the pieces of a split with the separator gives back the
      string: `split` loses nothing but the separators themselves. */
  lemma {:induction false} JoinSplitRoundTrip(s: string, sep: char)
    ensures Join(Split(s, sep), [sep]) == s
  {
    if s != [] {
      JoinSplitRoundTrip(s[1..], sep);
      var rest := Split(s[1..], sep);
      if s[0] == sep {
        var parts := [[]] + rest;
        assert parts[1..] == rest;
        assert Join(parts, [sep]) == [] + [sep] + Join(rest, [sep]);
        assert s == [sep] + s[1..];
      } else {
        JoinConsHead(s[0], rest, [sep]);
        assert s == [s[0]] + s[1..];
      }
    }
  }

  /** The split-and-join the source writes is exactly the character-by-character
      escaping. */
  lemma {:induction false} JoinSplitIsEscape(s: string)
    ensures Join(Split(s, Quote), [Backslash, Quote]) == EscapeQuotes(s)
  {
    if s != [] {
      JoinSplitIsEscape(s[1..]);
      var rest := Split(s[1..], Quote);
      if s[0] == Quote {
        var parts := [[]] + rest;
        assert parts[1..] == rest;
        assert Join(parts, [Backslash, Quote]) == [] + [Backslash, Quote] + Join(rest, [Backslash, Quote]);
      } else {
        JoinConsHead(s[0], rest, [Backslash, Quote]);
      }
    }
  }

  /** Unescaping the escaped path gives the path back: the escaping keeps
      every character, in order, and only adds backslashes. */
  lemma {:induction false} UnescapeEscape(s: string)
    ensures Unescape(EscapeQuotes(s)) == s
  {
    if s != [] {
      UnescapeEscape(s[1..]);
      var tail := EscapeQuotes(s[1..]);
      if s[0] == Quote {
        var t := [Backslash, Quote] + tail;
        assert t[2..] == tail;
      } else {
        var t := [s[0]] + tail;
        assert t[1..] == tail;
        assert !(|t| >= 2 && t[0] == Backslash && t[1] == Quote);
      }
    }
  }

  /** Every quote in the escaped text has a backslash right before it, so
      none of them can be the first character. */
  lemma {:induction false} EveryQuoteEscaped(s: string)
    ensures forall i :: 0 <= i < |EscapeQuotes(s)| && EscapeQuotes(s)[i] == Quote ==> i > 0 && EscapeQuotes(s)[i - 1] == Backslash
  {
    if s != [] {
      EveryQuoteEscaped(s[1..]);
      var head := if s[0] == Quote then [Backslash, Quote] else [s[0]];
      var tail := EscapeQuotes(s[1..]);
      assert EscapeQuotes(s) == head + tail;
      forall i | 0 <= i < |head + tail| && (head + tail)[i] == Quote
        ensures i > 0 && (head + tail)[i - 1] == Backslash
      {
        if i >= |head| {
          assert (head + tail)[i] == tail[i - |head|];
          if i - |head| == 0 {
            assert false;
          }
        }
      }
    }
  }

  /** Escaping works piece by piece: the escape of a concatenation is the
      concatenation of the escapes. */
  lemma {:induction false} EscapeConcat(a: string, b: string)
    ensures EscapeQuotes(a + b) == EscapeQuotes(a) + EscapeQuotes(b)
  {
    if a == [] {
      assert a + b == b;
    } else {
      assert (a + b)[0] == a[0];
      assert (a + b)[1..] == a[1..] + b;
      EscapeConcat(a[1..], b);
    }
  }

  /** Quotes of a concatenation are the quotes of its parts. */
  lemma {:induction false} CountQuotesConcat(a: string, b: string)
    ensures CountQuotes(a + b) == CountQuotes(a) + CountQuotes(b)
  {
    if a == [] {
      assert a + b == b;
    } else {
      assert (a + b)[0] == a[0];
      assert (a + b)[1..] == a[1..] + b;
      CountQuotesConcat(a[1..], b);
    }
  }

  /** A path without quotes is passed through unchanged. */
  lemma {:induction false} EscapeWithoutQuotes(s: string)
    requires CountQuotes(s) == 0
    ensures EscapeQuotes(s) == s
  {
    if s != [] {
      EscapeWithoutQuotes(s[1..]);
    }
  }
}
