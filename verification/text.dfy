/**
 * String helpers shared by the map parser, the command processor and the
 * game engine: `trim` and `split` of Map/Map.cpp, the whitespace trimming
 * of the file command adapter, `std::transform(..., ::tolower)` and
 * word extraction with `std::istringstream >>`.
 */
module Text {

  /** The characters `trim` strips: " \t\r\n". */
  predicate IsTrimSpace(c: char)
  {
    c == ' ' || c == '\t' || c == '\r' || c == '\n'
  }

  /** Number of leading trim-spaces (the index `find_first_not_of` returns, or |s|). */
  function LeadCount(s: string): (n: nat)
    ensures n <= |s|
    ensures forall i :: 0 <= i < n ==> IsTrimSpace(s[i])
    ensures n < |s| ==> !IsTrimSpace(s[n])
  {
    if s != [] && IsTrimSpace(s[0]) then 1 + LeadCount(s[1..]) else 0
  }

  /** Number of trailing trim-spaces. */
  function TrailCount(s: string): (n: nat)
    ensures n <= |s|
    ensures forall i :: |s| - n <= i < |s| ==> IsTrimSpace(s[i])
    ensures n < |s| ==> !IsTrimSpace(s[|s| - 1 - n])
  {
    if s != [] && IsTrimSpace(s[|s| - 1]) then 1 + TrailCount(s[..|s| - 1]) else 0
  }

  /** No leading and no trailing trim-space. */
  predicate IsTrimmed(s: string)
  {
    s == [] || (!IsTrimSpace(s[0]) && !IsTrimSpace(s[|s| - 1]))
  }

  /**
   * `trim`: the text between the first and the last character that is not
   * one of " \t\r\n"; the empty string when there is none.
   */
  function Trim(s: string): (r: string)
    ensures IsTrimmed(r)
    ensures r == [] <==> forall i :: 0 <= i < |s| ==> IsTrimSpace(s[i])
    ensures r != [] ==> r == s[LeadCount(s)..|s| - TrailCount(s)]
    ensures r != [] ==> forall i :: 0 <= i < LeadCount(s) || |s| - TrailCount(s) <= i < |s| ==> IsTrimSpace(s[i])
  {
    var start := LeadCount(s);
    if start == |s| then ""
    else
      var stop := |s| - TrailCount(s);
      assert !IsTrimSpace(s[start]);
      s[start..stop]
  }

  /** A string that already has no boundary whitespace is left as it is. */
  lemma TrimOfTrimmed(s: string)
    requires IsTrimmed(s)
    ensures Trim(s) == s
  {
    if s != [] {
      assert LeadCount(s) == 0;
      assert TrailCount(s) == 0;
    }
  }

  /** `trim` is idempotent. */
  lemma TrimIdempotent(s: string)
    ensures Trim(Trim(s)) == Trim(s)
  {
    TrimOfTrimmed(Trim(s));
  }

  /**
   * The pieces `std::getline(ss, token, delimiter)` would cut `s` into,
   * before trimming, with a final piece even when it is empty.
   */
  function Pieces(s: string, d: char): (r: seq<string>)
    ensures |r| >= 1
  {
    if s == [] then [""]
    else if s[0] == d then [""] + Pieces(s[1..], d)
    else
      var rest := Pieces(s[1..], d);
      [[s[0]] + rest[0]] + rest[1..]
  }

  /** Trim every piece and drop the empty ones, keeping the order. */
  function Clean(ps: seq<string>): (r: seq<string>)
    ensures |r| <= |ps|
    ensures forall k :: 0 <= k < |r| ==> r[k] != [] && IsTrimmed(r[k])
  {
    if ps == [] then []
    else (if Trim(ps[0]) == [] then [] else [Trim(ps[0])]) + Clean(ps[1..])
  }

  /** What `split(str, delimiter)` returns: the trimmed, non-empty pieces in order. */
  function SplitSpec(s: string, d: char): seq<string>
  {
    Clean(Pieces(s, d))
  }

  /** The token a finished piece contributes: its trimmed text, unless that is empty. */
  function Emit(piece: string): (r: seq<string>)
    ensures |r| <= 1
  {
    if Trim(piece) == [] then [] else [Trim(piece)]
  }

  /**
   * `split` read one character at a time: `cur` is the piece read so far,
   * `rest` what is left of the stream.
   */
  function SplitFrom(cur: string, rest: string, d: char): seq<string>
    decreases |rest|
  {
    if rest == [] then Emit(cur)
    else if rest[0] == d then Emit(cur) + SplitFrom("", rest[1..], d)
    else SplitFrom(cur + [rest[0]], rest[1..], d)
  }

  lemma {:induction false} CleanAppend(a: seq<string>, b: seq<string>)
    ensures Clean(a + b) == Clean(a) + Clean(b)
  {
    if a != [] {
      assert (a + b)[1..] == a[1..] + b;
      CleanAppend(a[1..], b);
    } else {
      assert a + b == b;
    }
  }

  /** A piece without a delimiter followed by one: it is cut off as a whole. */
  lemma {:induction false} PiecesAfterDelimiter(cur: string, d: char, t: string)
    requires d !in cur
    ensures Pieces(cur + [d] + t, d) == [cur] + Pieces(t, d)
  {
    if cur == [] {
      assert cur + [d] + t == [d] + t;
      assert ([d] + t)[1..] == t;
    } else {
      var s := cur + [d] + t;
      assert s[0] == cur[0];
      assert s[1..] == cur[1..] + [d] + t;
      PiecesAfterDelimiter(cur[1..], d, t);
      assert [cur[0]] + cur[1..] == cur;
    }
  }

  /** A string without the delimiter is a single piece. */
  lemma {:induction false} PiecesNoDelimiter(cur: string, d: char)
    requires d !in cur
    ensures Pieces(cur, d) == [cur]
  {
    if cur != [] {
      PiecesNoDelimiter(cur[1..], d);
      assert [cur[0]] + cur[1..] == cur;
    }
  }

  /**
   * Reading character by character yields exactly the trimmed, non-empty
   * `getline` pieces of what has been and is still to be read.
   */
  lemma {:induction false} SplitFromIsSplitSpec(cur: string, rest: string, d: char)
    requires d !in cur
    ensures SplitFrom(cur, rest, d) == SplitSpec(cur + rest, d)
    decreases |rest|
  {
    if rest == [] {
      assert cur + rest == cur;
      PiecesNoDelimiter(cur, d);
    } else if rest[0] == d {
      SplitFromIsSplitSpec("", rest[1..], d);
      assert "" + rest[1..] == rest[1..];
      SplitSpecAtDelimiter(cur, rest, d);
    } else {
      SplitFromIsSplitSpec(cur + [rest[0]], rest[1..], d);
      assert (cur + [rest[0]]) + rest[1..] == cur + rest;
    }
  }

  lemma SplitSpecAtDelimiter(cur: string, rest: string, d: char)
    requires d !in cur && rest != [] && rest[0] == d
    ensures SplitSpec(cur + rest, d) == Emit(cur) + SplitSpec(rest[1..], d)
  {
    assert cur + rest == cur + [d] + rest[1..];
    PiecesAfterDelimiter(cur, d, rest[1..]);
    CleanAppend([cur], Pieces(rest[1..], d));
  }

  /**
   * `split` (Map/Map.cpp:205-216): reads `s` piece by piece up to each
   * delimiter, trims each piece and keeps the non-empty ones.
   */
  method Split(s: string, d: char) returns (tokens: seq<string>)
    ensures tokens == SplitSpec(s, d)
    ensures forall k :: 0 <= k < |tokens| ==> tokens[k] != [] && IsTrimmed(tokens[k]) && d !in tokens[k]
  {
    tokens := [];
    var cur := "";
    var i := 0;
    while i < |s|
      invariant 0 <= i <= |s|
      invariant tokens + SplitFrom(cur, s[i..], d) == SplitFrom("", s, d)
    {
      assert s[i..][1..] == s[i + 1..];
      if s[i] == d {
        var t := Trim(cur);
        if t != "" {
          tokens := tokens + [t];
        }
        cur := "";
      } else {
        cur := cur + [s[i]];
      }
      i := i + 1;
    }
    var t := Trim(cur);
    if t != "" {
      tokens := tokens + [t];
    }
    SplitFromIsSplitSpec("", s, d);
    assert "" + s == s;
    SplitNoDelimiter(s, d);
  }

  /** No token of `split` holds the delimiter (each is part of one piece). */
  lemma SplitNoDelimiter(s: string, d: char)
    ensures forall k :: 0 <= k < |SplitSpec(s, d)| ==> d !in SplitSpec(s, d)[k]
  {
    PiecesHaveNoDelimiter(s, d);
    CleanNoDelimiter(Pieces(s, d), d);
  }

  lemma {:induction false} PiecesHaveNoDelimiter(s: string, d: char)
    ensures forall k :: 0 <= k < |Pieces(s, d)| ==> d !in Pieces(s, d)[k]
  {
    if s != [] {
      PiecesHaveNoDelimiter(s[1..], d);
    }
  }

  lemma {:induction false} CleanNoDelimiter(ps: seq<string>, d: char)
    requires forall k :: 0 <= k < |ps| ==> d !in ps[k]
    ensures forall k :: 0 <= k < |Clean(ps)| ==> d !in Clean(ps)[k]
  {
    if ps != [] {
      CleanNoDelimiter(ps[1..], d);
      var t := Trim(ps[0]);
      if t != [] {
        assert forall c :: c in t ==> c in ps[0];
      }
    }
  }

  // ---------------------------------------------------------------------
  // Lower-casing and `std::istringstream >>` word extraction.

  /** `::tolower` in the "C" locale: only 'A'..'Z' change. */
  function ToLower(c: char): (r: char)
    ensures 'A' <= c <= 'Z' ==> r as int == c as int + 32
    ensures !('A' <= c <= 'Z') ==> r == c
  {
    if 'A' <= c <= 'Z' then (c as int + 32) as char else c
  }

  /** `std::transform(s.begin(), s.end(), s.begin(), ::tolower)`. */
  function Lower(s: string): (r: string)
    ensures |r| == |s|
    ensures forall i :: 0 <= i < |s| ==> r[i] == ToLower(s[i])
  {
    if s == [] then [] else [ToLower(s[0])] + Lower(s[1..])
  }

  /** The whitespace `>>` skips (`isspace` in the "C" locale). */
  predicate IsStreamSpace(c: char)
  {
    c == ' ' || c == '\t' || c == '\n' || c == '\r' || c == '\U{B}' || c == '\U{C}'
  }

  /** Drops leading stream whitespace. */
  function SkipSpaces(s: string): (r: string)
    ensures |r| <= |s| && r == s[|s| - |r|..]
    ensures r == [] || !IsStreamSpace(r[0])
  {
    if s != [] && IsStreamSpace(s[0]) then SkipSpaces(s[1..]) else s
  }

  /** The longest prefix without stream whitespace. */
  function WordPrefix(s: string): (w: string)
    ensures w <= s
    ensures forall i :: 0 <= i < |w| ==> !IsStreamSpace(w[i])
    ensures |w| < |s| ==> IsStreamSpace(s[|w|])
  {
    if s == [] || IsStreamSpace(s[0]) then [] else [s[0]] + WordPrefix(s[1..])
  }

  /**
   * One `stream >> word`: skips whitespace and reads the next word; the word
   * is empty when only whitespace was left. Returns the word and the rest.
   */
  function NextWord(s: string): (r: (string, string))
    ensures forall i :: 0 <= i < |r.0| ==> !IsStreamSpace(r.0[i])
    ensures |r.1| <= |s|
    ensures r.0 == [] ==> r.1 == []
  {
    var t := SkipSpaces(s);
    var w := WordPrefix(t);
    (w, t[|w|..])
  }

  /** The first whitespace-separated word of `s` ("" if there is none). */
  function FirstWord(s: string): string
  {
    NextWord(s).0
  }

  /** The second whitespace-separated word of `s` ("" if there is none). */
  function SecondWord(s: string): string
  {
    NextWord(NextWord(s).1).0
  }

  /** A word read with `>>` from a string that starts with it. */
  lemma FirstWordOfWordThenSpace(w: string, rest: string)
    requires w != [] && forall i :: 0 <= i < |w| ==> !IsStreamSpace(w[i])
    requires rest == [] || IsStreamSpace(rest[0])
    ensures FirstWord(w + rest) == w
  {
    assert SkipSpaces(w + rest) == w + rest;
    WordPrefixOf(w, rest);
  }

  lemma {:induction false} WordPrefixOf(w: string, rest: string)
    requires forall i :: 0 <= i < |w| ==> !IsStreamSpace(w[i])
    requires rest == [] || IsStreamSpace(rest[0])
    ensures WordPrefix(w + rest) == w
  {
    if w == [] {
      assert w + rest == rest;
    } else {
      assert (w + rest)[1..] == w[1..] + rest;
      WordPrefixOf(w[1..], rest);
      assert [w[0]] + w[1..] == w;
    }
  }

  /** `s.rfind(prefix, 0) == 0`: `s` starts with `prefix`. */
  predicate StartsWith(s: string, prefix: string)
  {
    prefix <= s
  }
}
