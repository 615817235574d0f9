/**
 * The parts of java.lang.String, java.lang.Long and java.util.Formatter that the
 * modelled code relies on, stated over `string` (= seq<char>).
 */
module JavaText {
  import opened Wrappers

  // ---------------------------------------------------------------------------
  // Characters
  // ---------------------------------------------------------------------------

  /** String.trim() strips every character whose code is at most U+0020. */
  predicate IsTrimSpace(c: char) { c <= ' ' }

  /** The regex class \s (without UNICODE_CHARACTER_CLASS): [ \t\n\x0B\f\r]. */
  predicate IsRegexSpace(c: char) {
    c == ' ' || c == '\t' || c == '\n' || c == '\U{000B}' || c == '\U{000C}' || c == '\r'
  }

  /** The regex class \d (without UNICODE_CHARACTER_CLASS): [0-9]. */
  predicate IsDigit(c: char) { '0' <= c <= '9' }

  predicate AllDigits(s: string) { forall i :: 0 <= i < |s| ==> IsDigit(s[i]) }

  /** Lower-casing of one character, on the ASCII range. */
  function LowerChar(c: char): (r: char)
    ensures 'A' <= c <= 'Z' ==> 'a' <= r <= 'z'
    ensures !('A' <= c <= 'Z') ==> r == c
  {
    if 'A' <= c <= 'Z' then (c as int - 'A' as int + 'a' as int) as char else c
  }

  /** String.toLowerCase(), on the ASCII range. */
  function ToLower(s: string): (r: string)
    ensures |r| == |s|
    ensures forall i :: 0 <= i < |s| ==> r[i] == LowerChar(s[i])
  {
    if s == [] then [] else [LowerChar(s[0])] + ToLower(s[1..])
  }

  lemma {:induction false} ToLowerIdempotent(s: string)
    ensures ToLower(ToLower(s)) == ToLower(s)
  {
    if s != [] {
      ToLowerIdempotent(s[1..]);
    }
  }

  lemma {:induction false} ToLowerConcat(a: string, b: string)
    ensures ToLower(a + b) == ToLower(a) + ToLower(b)
  {
    if a != [] {
      assert (a + b)[0] == a[0] && (a + b)[1..] == a[1..] + b;
      ToLowerConcat(a[1..], b);
    } else {
      assert a + b == b;
    }
  }

  /** Lower-casing never moves a character across the trim boundary U+0020. */
  lemma LowerCharTrimSpace(c: char)
    ensures IsTrimSpace(LowerChar(c)) <==> IsTrimSpace(c)
  {
  }

  lemma {:induction false} ToLowerSlices(s: string, a: nat, b: nat)
    requires a <= b <= |s|
    ensures ToLower(s)[a..b] == ToLower(s[a..b])
  {
    assert |ToLower(s)[a..b]| == |ToLower(s[a..b])|;
    forall i | 0 <= i < b - a ensures ToLower(s)[a..b][i] == ToLower(s[a..b])[i] {
      assert s[a..b][i] == s[a + i];
    }
  }

  // ---------------------------------------------------------------------------
  // Prefixes, suffixes, containment
  // ---------------------------------------------------------------------------

  predicate StartsWith(s: string, p: string) { |p| <= |s| && s[..|p|] == p }

  predicate EndsWith(s: string, p: string) { |p| <= |s| && s[|s| - |p|..] == p }

  /** String.contains: p occurs in s at some position. */
  predicate Contains(s: string, p: string)
  {
    StartsWith(s, p) || (s != [] && Contains(s[1..], p))
  }

  lemma {:induction false} ContainsAt(s: string, p: string, k: nat)
    requires k + |p| <= |s| && s[k..k + |p|] == p
    ensures Contains(s, p)
  {
    if k > 0 {
      assert s[1..][k - 1..k - 1 + |p|] == s[k..k + |p|];
      ContainsAt(s[1..], p, k - 1);
    }
  }

  lemma {:induction false} ContainsWitness(s: string, p: string) returns (k: nat)
    requires Contains(s, p)
    ensures k + |p| <= |s| && s[k..k + |p|] == p
  {
    if StartsWith(s, p) {
      k := 0;
    } else {
      var k' := ContainsWitness(s[1..], p);
      k := k' + 1;
      assert s[k..k + |p|] == s[1..][k'..k' + |p|];
    }
  }

  /** A character occurs in s iff the one-character string does. */
  lemma {:induction false} ContainsChar(s: string, c: char)
    ensures Contains(s, [c]) <==> c in s
  {
    if c in s {
      var k :| 0 <= k < |s| && s[k] == c;
      assert s[k..k + 1] == [c];
      ContainsAt(s, [c], k);
    }
    if Contains(s, [c]) {
      var k := ContainsWitness(s, [c]);
      assert s[k] == c;
    }
  }

  /** An occurrence survives lower-casing both strings. */
  lemma {:induction false} ContainsLower(s: string, p: string)
    requires Contains(s, p)
    ensures Contains(ToLower(s), ToLower(p))
  {
    var k := ContainsWitness(s, p);
    ToLowerSlices(s, k, k + |p|);
    ContainsAt(ToLower(s), ToLower(p), k);
  }

  /** p occurs in s starting at position k. */
  predicate OccursAt(s: string, p: string, k: nat)
  {
    k + |p| <= |s| && s[k..k + |p|] == p
  }

  lemma OccursAtTail(s: string, p: string, k: nat)
    requires s != []
    ensures OccursAt(s, p, k + 1) <==> OccursAt(s[1..], p, k)
  {
    if k + 1 + |p| <= |s| {
      assert s[k + 1..k + 1 + |p|] == s[1..][k..k + |p|];
    }
  }

  /** String.indexOf(String): the first position where p occurs in s, or -1. */
  function IndexOf(s: string, p: string): (r: int)
    ensures -1 <= r <= |s| - |p| || r == -1
    ensures r >= 0 ==> OccursAt(s, p, r)
    ensures r >= 0 ==> forall k :: 0 <= k < r ==> !OccursAt(s, p, k)
    ensures r == -1 <==> !Contains(s, p)
  {
    if StartsWith(s, p) then 0
    else if s == [] then -1
    else
      var k := IndexOf(s[1..], p);
      if k < 0 then -1
      else
        OccursAtTail(s, p, k);
        assert !OccursAt(s, p, 0) by {
          if |p| <= |s| {
            assert s[0..|p|] == s[..|p|];
          }
        }
        assert forall j :: 1 <= j <= k ==> !OccursAt(s, p, j) by {
          forall j | 1 <= j <= k ensures !OccursAt(s, p, j) {
            OccursAtTail(s, p, j - 1);
          }
        }
        k + 1
  }

  /** A string lacking the first character of p does not contain p. */
  lemma {:induction false} NotContainsHead(s: string, p: string)
    requires p != [] && p[0] !in s
    ensures !Contains(s, p)
  {
    if s != [] {
      assert s[0] in s;
      assert p[0] !in s[1..] by {
        forall i | 0 <= i < |s[1..]| ensures s[1..][i] != p[0] { assert s[1..][i] == s[i + 1]; }
      }
      NotContainsHead(s[1..], p);
    }
  }

  /** String.lastIndexOf(char): the greatest index holding c, or -1. */
  function LastIndexOf(s: string, c: char): (r: int)
    ensures -1 <= r < |s|
    ensures r >= 0 ==> s[r] == c
    ensures forall i :: r < i < |s| ==> s[i] != c
  {
    if s == [] then -1
    else if s[|s| - 1] == c then |s| - 1
    else LastIndexOf(s[..|s| - 1], c)
  }

  /** A file name without its last extension, when the last '.' is not its first character. */
  function DropExtension(name: string): (r: string)
    ensures LastIndexOf(name, '.') > 0 ==>
              r == name[..LastIndexOf(name, '.')] && '.' !in name[|r| + 1..]
    ensures LastIndexOf(name, '.') <= 0 ==> r == name
  {
    var k := LastIndexOf(name, '.');
    if k > 0 then name[..k]
    else name
  }

  // ---------------------------------------------------------------------------
  // Trimming
  // ---------------------------------------------------------------------------

  function TrimStart(s: string): (r: string)
    ensures |r| <= |s| && r == s[|s| - |r|..]
    ensures r != [] ==> !IsTrimSpace(r[0])
    ensures forall i :: 0 <= i < |s| - |r| ==> IsTrimSpace(s[i])
  {
    if s != [] && IsTrimSpace(s[0]) then TrimStart(s[1..]) else s
  }

  function TrimEnd(s: string): (r: string)
    ensures |r| <= |s| && r == s[..|r|]
    ensures r != [] ==> !IsTrimSpace(r[|r| - 1])
    ensures forall i :: |r| <= i < |s| ==> IsTrimSpace(s[i])
  {
    if s != [] && IsTrimSpace(s[|s| - 1]) then TrimEnd(s[..|s| - 1]) else s
  }

  /** How many leading characters String.trim() drops. */
  function TrimOffset(s: string): nat { |s| - |TrimStart(s)| }

  /** String.trim(): the infix left after whitespace is stripped from both ends. */
  function Trim(s: string): (r: string)
    ensures |r| <= |s|
    ensures r != [] ==> !IsTrimSpace(r[0]) && !IsTrimSpace(r[|r| - 1])
    ensures TrimOffset(s) + |r| <= |s| && r == s[TrimOffset(s)..TrimOffset(s) + |r|]
    ensures forall i :: 0 <= i < TrimOffset(s) ==> IsTrimSpace(s[i])
    ensures forall i :: TrimOffset(s) + |r| <= i < |s| ==> IsTrimSpace(s[i])
  {
    TrimEndSlice(TrimStart(s), s, TrimOffset(s));
    TrimEnd(TrimStart(s))
  }

  /** Trimming the end of the suffix t = s[o..] leaves an infix of s followed only by whitespace. */
  lemma TrimEndSlice(t: string, s: string, o: nat)
    requires o <= |s| && t == s[o..]
    ensures var r := TrimEnd(t);
            && o + |r| <= |s| && r == s[o..o + |r|]
            && (r != [] ==> r[0] == t[0])
            && (forall i :: o + |r| <= i < |s| ==> IsTrimSpace(s[i]))
  {
    var r := TrimEnd(t);
    assert r == t[..|r|];
    forall i | 0 <= i < |r| ensures r[i] == s[o..o + |r|][i] {
      assert r[i] == t[i] == s[o + i];
    }
    if r != [] {
      assert r[0] == t[0];
    }
    forall i | o + |r| <= i < |s| ensures IsTrimSpace(s[i]) {
      assert s[i] == t[i - o];
    }
  }

  /** A string trims to "" exactly when every character is whitespace. */
  lemma TrimEmpty(s: string)
    ensures Trim(s) == [] <==> forall i :: 0 <= i < |s| ==> IsTrimSpace(s[i])
  {
  }

  /** A string with no whitespace at either end is its own trim. */
  lemma TrimNoop(s: string)
    requires s != [] ==> !IsTrimSpace(s[0]) && !IsTrimSpace(s[|s| - 1])
    ensures Trim(s) == s
  {
  }

  lemma TrimIdempotent(s: string)
    ensures Trim(Trim(s)) == Trim(s)
  {
    TrimNoop(Trim(s));
  }

  lemma {:induction false} TrimStartLower(s: string)
    ensures TrimStart(ToLower(s)) == ToLower(TrimStart(s))
  {
    if s != [] {
      LowerCharTrimSpace(s[0]);
      ToLowerSlices(s, 1, |s|);
      TrimStartLower(s[1..]);
    }
  }

  lemma {:induction false} TrimEndLower(s: string)
    ensures TrimEnd(ToLower(s)) == ToLower(TrimEnd(s))
  {
    if s != [] {
      LowerCharTrimSpace(s[|s| - 1]);
      ToLowerSlices(s, 0, |s| - 1);
      TrimEndLower(s[..|s| - 1]);
    }
  }

  /** Trimming and lower-casing commute. */
  lemma TrimLower(s: string)
    ensures Trim(ToLower(s)) == ToLower(Trim(s))
  {
    TrimStartLower(s);
    TrimEndLower(TrimStart(s));
  }

  // ---------------------------------------------------------------------------
  // Replacement
  // ---------------------------------------------------------------------------

  /** String.replace(char, char). */
  function ReplaceChar(s: string, a: char, b: char): (r: string)
    ensures |r| == |s|
    ensures forall i :: 0 <= i < |s| ==> r[i] == (if s[i] == a then b else s[i])
  {
    if s == [] then [] else [if s[0] == a then b else s[0]] + ReplaceChar(s[1..], a, b)
  }

  lemma ReplaceCharRemoves(s: string, a: char, b: char)
    requires a != b
    ensures a !in ReplaceChar(s, a, b)
  {
    var r := ReplaceChar(s, a, b);
    forall i | 0 <= i < |r| ensures r[i] != a { }
  }

  /** String.replace(pat, ""): every occurrence of pat, found left to right, is deleted. */
  function RemoveAll(s: string, pat: string): (r: string)
    requires |pat| > 0
    ensures |r| <= |s|
    decreases |s|
  {
    if |s| < |pat| then s
    else if s[..|pat|] == pat then RemoveAll(s[|pat|..], pat)
    else [s[0]] + RemoveAll(s[1..], pat)
  }

  /** Deleting a pattern from a string that does not contain it changes nothing. */
  lemma {:induction false} RemoveAllAbsent(s: string, pat: string)
    requires |pat| > 0 && !Contains(s, pat)
    ensures RemoveAll(s, pat) == s
    decreases |s|
  {
    if |s| >= |pat| {
      assert !StartsWith(s, pat);
      RemoveAllAbsent(s[1..], pat);
      assert [s[0]] + s[1..] == s;
    }
  }

  /** Deletion only drops characters: every character of the result occurs in s. */
  lemma {:induction false} RemoveAllChars(s: string, pat: string)
    requires |pat| > 0
    ensures forall c :: c in RemoveAll(s, pat) ==> c in s
    decreases |s|
  {
    if |s| >= |pat| {
      if s[..|pat|] == pat {
        RemoveAllChars(s[|pat|..], pat);
      } else {
        RemoveAllChars(s[1..], pat);
      }
    }
  }

  // ---------------------------------------------------------------------------
  // Splitting and joining
  // ---------------------------------------------------------------------------

  /** The pieces of s between consecutive occurrences of d, empty pieces included. */
  function Pieces(s: string, d: char): (r: seq<string>)
    ensures |r| >= 1
    ensures forall i :: 0 <= i < |r| ==> d !in r[i]
  {
    if s == [] then [""]
    else
      var rest := Pieces(s[1..], d);
      if s[0] == d then [""] + rest else [[s[0]] + rest[0]] + rest[1..]
  }

  /** Joining strings with a separator; the inverse of Pieces. */
  function Join(ps: seq<string>, sep: string): string
  {
    if ps == [] then ""
    else if |ps| == 1 then ps[0]
    else ps[0] + sep + Join(ps[1..], sep)
  }

  lemma {:induction false} JoinSnoc(ps: seq<string>, x: string, sep: string)
    requires ps != []
    ensures Join(ps + [x], sep) == Join(ps, sep) + sep + x
  {
    if |ps| == 1 {
      assert ps + [x] == [ps[0], x];
    } else {
      assert (ps + [x])[1..] == ps[1..] + [x];
      JoinSnoc(ps[1..], x, sep);
    }
  }

  /** Joining the pieces with the delimiter gives back the string. */
  lemma {:induction false} JoinPieces(s: string, d: char)
    ensures Join(Pieces(s, d), [d]) == s
  {
    if s != [] {
      JoinPieces(s[1..], d);
      var rest := Pieces(s[1..], d);
      if s[0] == d {
        assert Pieces(s, d) == [""] + rest;
        assert ([""] + rest)[1..] == rest;
      } else {
        var ps := Pieces(s, d);
        if |rest| > 1 {
          assert ps[1..] == rest[1..];
          assert Join(rest, [d]) == rest[0] + [d] + Join(rest[1..], [d]);
        }
      }
    }
  }

  /** Splitting a join of delimiter-free strings at the delimiter gives them back. */
  lemma {:induction false} PiecesJoin(ps: seq<string>, d: char)
    requires ps != [] && forall i :: 0 <= i < |ps| ==> d !in ps[i]
    ensures Pieces(Join(ps, [d]), d) == ps
  {
    if |ps| == 1 {
      PiecesNoDelim(ps[0], d);
    } else {
      PiecesJoin(ps[1..], d);
      PiecesFirstDelim(ps[0], Join(ps[1..], [d]), d);
      assert [ps[0]] + ps[1..] == ps;
    }
  }

  /** Appending the delimiter opens a new, empty last piece. */
  lemma {:induction false} PiecesSnocDelim(s: string, d: char)
    ensures Pieces(s + [d], d) == Pieces(s, d) + [""]
  {
    if s == [] {
      assert [d][1..] == [];
      assert s + [d] == [d];
    } else {
      assert (s + [d])[1..] == s[1..] + [d];
      PiecesSnocDelim(s[1..], d);
      var rest := Pieces(s[1..], d);
      if s[0] != d {
        assert (rest + [""])[0] == rest[0];
        assert (rest + [""])[1..] == rest[1..] + [""];
      }
    }
  }

  /** Appending any other character extends the last piece. */
  /** The pieces of a string with a known first character. */
  lemma PiecesCons(x: char, t: string, d: char)
    ensures var rest := Pieces(t, d);
            Pieces([x] + t, d) == if x == d then [""] + rest else [[x] + rest[0]] + rest[1..]
  {
    assert ([x] + t)[0] == x && ([x] + t)[1..] == t;
  }

  lemma {:induction false} PiecesSnocChar(s: string, c: char, d: char)
    requires c != d
    ensures var ps := Pieces(s, d);
            Pieces(s + [c], d) == ps[..|ps| - 1] + [ps[|ps| - 1] + [c]]
  {
    if s == [] {
      PiecesCons(c, [], d);
      assert s + [c] == [c] + [];
    } else {
      var x, t := s[0], s[1..];
      assert s == [x] + t;
      assert s + [c] == [x] + (t + [c]);
      PiecesSnocChar(t, c, d);
      PiecesCons(x, t, d);
      PiecesCons(x, t + [c], d);
      var rest := Pieces(t, d);
      var last := |rest| - 1;
      var rest' := Pieces(t + [c], d);
      assert rest' == rest[..last] + [rest[last] + [c]];
      var ps := Pieces(s, d);
      if x == d {
        assert ps[..|ps| - 1] == [""] + rest[..last];
      } else if last == 0 {
        assert [x] + (rest[0] + [c]) == ([x] + rest[0]) + [c];
      } else {
        assert rest'[0] == rest[0];
        assert rest'[1..] == rest[1..last] + [rest[last] + [c]];
        assert ps[..|ps| - 1] == [[x] + rest[0]] + rest[1..last];
      }
    }
  }

  /** A string without the delimiter is one piece. */
  lemma {:induction false} PiecesNoDelim(s: string, d: char)
    requires d !in s
    ensures Pieces(s, d) == [s]
  {
    if s != [] {
      assert d !in s[1..] by {
        forall i | 0 <= i < |s[1..]| ensures s[1..][i] != d { assert s[1..][i] == s[i + 1]; }
      }
      PiecesNoDelim(s[1..], d);
      assert [s[0]] + s[1..] == s;
    }
  }

  /** The first delimiter ends the first piece. */
  lemma {:induction false} PiecesFirstDelim(a: string, b: string, d: char)
    requires d !in a
    ensures Pieces(a + [d] + b, d) == [a] + Pieces(b, d)
  {
    if a == [] {
      assert (a + [d] + b)[1..] == b;
    } else {
      assert d !in a[1..] by {
        forall i | 0 <= i < |a[1..]| ensures a[1..][i] != d { assert a[1..][i] == a[i + 1]; }
      }
      PiecesFirstDelim(a[1..], b, d);
      assert (a + [d] + b)[1..] == a[1..] + [d] + b;
      assert [a[0]] + a[1..] == a;
    }
  }

  /** a, d, b with neither a nor the non-empty b holding d splits into [a, b]. */
  lemma SplitTwo(a: string, b: string, d: char)
    requires d !in a && d !in b && b != ""
    ensures Split(a + [d] + b, d) == [a, b]
  {
    PiecesFirstDelim(a, b, d);
    PiecesNoDelim(b, d);
    assert (a + [d] + b)[|a|] == d;
  }

  /** a, d, b, d, c with none of a, b and the non-empty c holding d splits into [a, b, c]. */
  lemma SplitThree(a: string, b: string, c: string, d: char)
    requires d !in a && d !in b && d !in c && c != ""
    ensures Split(a + [d] + b + [d] + c, d) == [a, b, c]
  {
    assert a + [d] + b + [d] + c == a + [d] + (b + [d] + c);
    PiecesFirstDelim(a, b + [d] + c, d);
    PiecesFirstDelim(b, c, d);
    PiecesNoDelim(c, d);
    assert (a + [d] + b + [d] + c)[|a|] == d;
  }

  /** a followed by one trailing d splits into [a]: the empty last piece is dropped. */
  lemma SplitTrailing(a: string, d: char)
    requires d !in a && a != ""
    ensures Split(a + [d], d) == [a]
  {
    PiecesFirstDelim(a, "", d);
    assert a + [d] + "" == a + [d];
    assert (a + [d])[|a|] == d;
    assert Pieces(a + [d], d) == [a, ""];
    assert [a, ""][..1] == [a];
    assert DropTrailingEmpty([a, ""]) == DropTrailingEmpty([a]);
    assert DropTrailingEmpty([a]) == [a];
  }

  function DropTrailingEmpty(ps: seq<string>): (r: seq<string>)
    ensures |r| <= |ps| && r == ps[..|r|]
    ensures r != [] ==> r[|r| - 1] != ""
    ensures forall i :: |r| <= i < |ps| ==> ps[i] == ""
  {
    if ps != [] && ps[|ps| - 1] == "" then DropTrailingEmpty(ps[..|ps| - 1]) else ps
  }

  /**
   * String.split(d) with limit 0: a string without d is returned whole (even "");
   * otherwise the pieces between the delimiters, with trailing empty pieces removed.
   */
  function Split(s: string, d: char): (r: seq<string>)
    ensures forall i :: 0 <= i < |r| ==> d !in r[i]
    ensures d !in s ==> r == [s]
  {
    if d !in s then [s] else DropTrailingEmpty(Pieces(s, d))
  }

  /** A string with no delimiter, or non-empty last piece, loses nothing when split. */
  lemma SplitJoin(s: string, d: char)
    requires s == [] || s[|s| - 1] != d
    ensures Join(Split(s, d), [d]) == s
  {
    JoinPieces(s, d);
    if d in s {
      LastPieceNonEmpty(s, d);
    }
  }

  lemma {:induction false} LastPieceNonEmpty(s: string, d: char)
    requires s != [] && s[|s| - 1] != d
    ensures Pieces(s, d)[|Pieces(s, d)| - 1] != ""
  {
    var rest := Pieces(s[1..], d);
    if |s| > 1 {
      LastPieceNonEmpty(s[1..], d);
    }
  }

  // ---------------------------------------------------------------------------
  // Decimal numbers
  // ---------------------------------------------------------------------------

  function DigitChar(d: nat): (c: char)
    requires d < 10
    ensures IsDigit(c) && c as int - '0' as int == d
  {
    ('0' as int + d) as char
  }

  /** A run of decimal digits at the front of s: its length. */
  function LeadingDigits(s: string): (r: nat)
    ensures r <= |s| && AllDigits(s[..r]) && (r < |s| ==> !IsDigit(s[r]))
  {
    if s != [] && IsDigit(s[0]) then
      var r := 1 + LeadingDigits(s[1..]);
      assert forall i :: 1 <= i < r ==> s[..r][i] == s[1..][..r - 1][i - 1];
      r
    else 0
  }

  /** A run of decimal digits at the end of s: its length. */
  function TrailingDigits(s: string): (r: nat)
    ensures r <= |s| && AllDigits(s[|s| - r..]) && (r < |s| ==> !IsDigit(s[|s| - r - 1]))
  {
    if s != [] && IsDigit(s[|s| - 1]) then
      var r := 1 + TrailingDigits(s[..|s| - 1]);
      assert s[|s| - r..] == s[..|s| - 1][|s| - r..] + [s[|s| - 1]];
      r
    else 0
  }

  /** A run of regex white space (\s) at the front of s: its length. */
  function LeadingSpaces(s: string): (r: nat)
    ensures r <= |s| && (forall i :: 0 <= i < r ==> IsRegexSpace(s[i])) && (r < |s| ==> !IsRegexSpace(s[r]))
  {
    if s != [] && IsRegexSpace(s[0]) then 1 + LeadingSpaces(s[1..]) else 0
  }

  /** Long.toString / %d of a non-negative number: decimal, no leading zeros. */
  function NatToString(n: nat): (r: string)
    ensures |r| >= 1 && AllDigits(r)
    ensures n < 10 <==> |r| == 1
    ensures n < 100 ==> |r| <= 2
  {
    if n < 10 then [DigitChar(n)] else NatToString(n / 10) + [DigitChar(n % 10)]
  }

  /** A printed positive number has no leading zero. */
  lemma {:induction false} NatToStringLead(n: nat)
    requires n >= 1
    ensures NatToString(n)[0] != '0'
  {
    if n >= 10 {
      NatToStringLead(n / 10);
    }
  }

  /** Long.toString of any number: a '-' sign before the magnitude when negative. */
  function IntToString(i: int): string
  {
    if i < 0 then "-" + NatToString(-i) else NatToString(i)
  }

  /** %02d of a non-negative number: zero-padded to at least two digits. */
  function Pad2(n: nat): (r: string)
    ensures |r| >= 2 && AllDigits(r)
    ensures n < 100 ==> |r| == 2
  {
    if n < 10 then "0" + NatToString(n) else NatToString(n)
  }

  /** The value of a string of decimal digits (the empty string reads as 0). */
  function DigitsValue(s: string): nat
    requires AllDigits(s)
  {
    if s == [] then 0 else 10 * DigitsValue(s[..|s| - 1]) + (s[|s| - 1] as int - '0' as int)
  }

  /** Reading back a printed number gives the number. */
  lemma {:induction false} NatToStringValue(n: nat)
    ensures DigitsValue(NatToString(n)) == n
  {
    if n >= 10 {
      NatToStringValue(n / 10);
      var s := NatToString(n);
      assert s[..|s| - 1] == NatToString(n / 10);
    }
  }

  /** Reading back a zero-padded number gives the number. */
  lemma Pad2Value(n: nat)
    ensures DigitsValue(Pad2(n)) == n
  {
    NatToStringValue(n);
    if n < 10 {
      assert Pad2(n)[..1] == "0";
    }
  }

  const LONG_MIN: int := -0x8000_0000_0000_0000
  const LONG_MAX: int := 0x7FFF_FFFF_FFFF_FFFF

  predicate InLongRange(x: int) { LONG_MIN <= x <= LONG_MAX }

  /** Two's-complement wrap-around of a Java long. */
  function Wrap64(x: int): (r: int)
    ensures InLongRange(r)
    ensures InLongRange(x) ==> r == x
    ensures (r - x) % 0x1_0000_0000_0000_0000 == 0
  {
    (x - LONG_MIN) % 0x1_0000_0000_0000_0000 + LONG_MIN
  }

  /**
   * Long.parseLong: an optional '+' or '-' followed by at least one digit, with a
   * value that fits a long; anything else throws NumberFormatException (None).
   */
  function ParseLong(s: string): (r: Option<int>)
    ensures r.Some? ==> InLongRange(r.value)
  {
    if s == [] then None
    else
      var neg := s[0] == '-';
      var body := if s[0] == '-' || s[0] == '+' then s[1..] else s;
      if body == [] || !AllDigits(body) then None
      else
        var magnitude: int := DigitsValue(body);
        var v := if neg then -magnitude else magnitude;
        if InLongRange(v) then Some(v) else None
  }

  /** Without a minus sign Long.parseLong never yields a negative number. */
  lemma ParseLongNoMinus(s: string)
    requires '-' !in s && ParseLong(s).Some?
    ensures ParseLong(s).value >= 0
  {
    assert s[0] in s;
  }

  /** Printing a non-negative long and parsing it back is the identity. */
  lemma ParseLongNatToString(n: nat)
    requires n <= LONG_MAX
    ensures ParseLong(NatToString(n)) == Some(n)
  {
    NatToStringValue(n);
  }

  /** Java's long division: the quotient rounded toward zero. */
  function JavaDiv(a: int, b: int): int
    requires b > 0
  {
    if a >= 0 then a / b else -((-a) / b)
  }

  /** Java's long remainder: it takes the sign of the dividend. */
  function JavaRem(a: int, b: int): int
    requires b > 0
  {
    if a >= 0 then a % b else -((-a) % b)
  }

  /** Java's quotient and remainder fit together, and the remainder is smaller than b in size. */
  lemma JavaDivRem(a: int, b: int)
    requires b > 0
    ensures b * JavaDiv(a, b) + JavaRem(a, b) == a
    ensures a >= 0 ==> 0 <= JavaRem(a, b) < b && JavaDiv(a, b) >= 0
    ensures a < 0 ==> -b < JavaRem(a, b) <= 0 && JavaDiv(a, b) <= 0
  {
  }

  /** %02d: a non-negative number zero-padded to two digits; a negative one already has two characters. */
  function Format02d(i: int): string
  {
    if i < 0 then IntToString(i) else Pad2(i)
  }

  /** Long.toString and %02d print digits and at most a minus sign, never a separator. */
  lemma PrintedNumberChars(i: int, c: char)
    requires !IsDigit(c) && c != '-'
    ensures c !in IntToString(i) && c !in Format02d(i)
  {
    if i < 0 {
      var m := NatToString(-i);
      assert IntToString(i) == "-" + m;
      assert forall k :: 0 <= k < |m| ==> m[k] != c;
    } else {
      var p := Pad2(i);
      var m := NatToString(i);
      assert forall k :: 0 <= k < |p| ==> p[k] != c;
      assert forall k :: 0 <= k < |m| ==> m[k] != c;
    }
  }

  function Min(a: int, b: int): int { if a <= b then a else b }
}
