/** The JavaScript string routines the user handlers rely on: `trim`,
    `toLowerCase`, `replace` with a string pattern, and `split` on one
    character, each with the properties the handlers depend on. */
module Strings {

  datatype Option<+T> = None | Some(value: T)

  /** JavaScript truthiness of a value that is either `undefined` or a string:
      `undefined` and `""` are falsy, every other string is truthy. */
  predicate Truthy(o: Option<string>) {
    o.Some? && o.value != ""
  }

  // ---------------------------------------------------------------------
  // String.prototype.trim

  /** The WhiteSpace and LineTerminator code points of ECMAScript, which
      `trim` removes from both ends. */
  predicate IsWhiteSpace(c: char) {
    || c == '\t' || c == '\n' || c == '\U{B}' || c == '\U{C}' || c == '\r'
    || c == ' ' || c == '\U{A0}' || c == '\U{1680}'
    || ('\U{2000}' <= c <= '\U{200A}')
    || c == '\U{2028}' || c == '\U{2029}' || c == '\U{202F}' || c == '\U{205F}'
    || c == '\U{3000}' || c == '\U{FEFF}'
  }

  predicate AllWhiteSpace(s: string) {
    forall i :: 0 <= i < |s| ==> IsWhiteSpace(s[i])
  }

  function TrimStart(s: string): string {
    if s != [] && IsWhiteSpace(s[0]) then TrimStart(s[1..]) else s
  }

  function TrimEnd(s: string): string {
    if s != [] && IsWhiteSpace(s[|s| - 1]) then TrimEnd(s[..|s| - 1]) else s
  }

  function Trim(s: string): string {
    TrimEnd(TrimStart(s))
  }

  /** TrimStart drops a whitespace prefix and keeps the rest, which is empty
      or starts with a non-whitespace character. */
  lemma {:induction false} TrimStartDropsWhiteSpace(s: string)
    ensures |TrimStart(s)| <= |s|
    ensures TrimStart(s) == s[|s| - |TrimStart(s)|..]
    ensures AllWhiteSpace(s[..|s| - |TrimStart(s)|])
    ensures TrimStart(s) != [] ==> !IsWhiteSpace(TrimStart(s)[0])
  {
    if s != [] && IsWhiteSpace(s[0]) {
      TrimStartDropsWhiteSpace(s[1..]);
      var k := |s| - |TrimStart(s)|;
      assert s[..k] == [s[0]] + s[1..][..k - 1];
    }
  }

  /** TrimEnd drops a whitespace suffix and keeps the rest, which is empty or
      ends with a non-whitespace character. */
  lemma {:induction false} TrimEndDropsWhiteSpace(s: string)
    ensures |TrimEnd(s)| <= |s|
    ensures TrimEnd(s) == s[..|TrimEnd(s)|]
    ensures AllWhiteSpace(s[|TrimEnd(s)|..])
    ensures TrimEnd(s) != [] ==> !IsWhiteSpace(TrimEnd(s)[|TrimEnd(s)| - 1])
  {
    if s != [] && IsWhiteSpace(s[|s| - 1]) {
      var p := s[..|s| - 1];
      TrimEndDropsWhiteSpace(p);
      var k := |TrimEnd(s)|;
      assert s[k..] == p[k..] + [s[|s| - 1]];
    }
  }

  /** trim returns "" exactly when the string consists of whitespace only,
      which is what the blank-field test of registration depends on. */
  lemma TrimEmptyIff(s: string)
    ensures Trim(s) == [] <==> AllWhiteSpace(s)
  {
    TrimStartDropsWhiteSpace(s);
    var t := TrimStart(s);
    TrimEndDropsWhiteSpace(t);
    var k := |s| - |t|;
    if Trim(s) == [] {
      assert AllWhiteSpace(t[0..]);
      assert t[0..] == t;
      if t != [] {
        assert false;
      }
      assert s[..k] == s;
    } else {
      var r := Trim(s);
      assert r[0] == t[0];
      assert t[0] == s[k];
      assert !IsWhiteSpace(s[k]);
    }
  }

  // ---------------------------------------------------------------------
  // String.prototype.toLowerCase (ASCII letters only)

  function LowerChar(c: char): char {
    if 'A' <= c <= 'Z' then (c as int + 32) as char else c
  }

  function ToLowerCase(s: string): string {
    if s == [] then [] else [LowerChar(s[0])] + ToLowerCase(s[1..])
  }

  /** Lowercasing keeps the length, maps each character on its own, and
      leaves no upper-case ASCII letter behind. */
  lemma {:induction false} ToLowerCaseCharwise(s: string)
    ensures |ToLowerCase(s)| == |s|
    ensures forall i :: 0 <= i < |s| ==> ToLowerCase(s)[i] == LowerChar(s[i])
    ensures forall i :: 0 <= i < |s| ==> !('A' <= ToLowerCase(s)[i] <= 'Z')
  {
    if s != [] {
      ToLowerCaseCharwise(s[1..]);
      assert forall i :: 1 <= i < |s| ==> ToLowerCase(s)[i] == ToLowerCase(s[1..])[i - 1];
    }
  }

  // ---------------------------------------------------------------------
  // String.prototype.replace with a string pattern: only the first
  // occurrence, wherever it is, is replaced.

  predicate OccursAt(s: string, pat: string, i: nat) {
    i + |pat| <= |s| && s[i..i + |pat|] == pat
  }

  /** The index of the first occurrence of `pat` in `s` (String.prototype.indexOf). */
  function IndexOf(s: string, pat: string): (r: Option<nat>)
    ensures r.Some? ==> OccursAt(s, pat, r.value)
    ensures r.Some? ==> forall j :: 0 <= j < r.value ==> !OccursAt(s, pat, j)
    ensures r.None? ==> forall j :: 0 <= j ==> !OccursAt(s, pat, j)
    decreases |s|
  {
    if OccursAt(s, pat, 0) then Some(0)
    else if s == [] then None
    else
      var rest := IndexOf(s[1..], pat);
      assert forall j :: 1 <= j ==> (OccursAt(s, pat, j) <==> OccursAt(s[1..], pat, j - 1)) by {
        forall j | 1 <= j ensures OccursAt(s, pat, j) <==> OccursAt(s[1..], pat, j - 1) {
          if j + |pat| <= |s| { assert s[j..j + |pat|] == s[1..][j - 1..j - 1 + |pat|]; }
        }
      }
      match rest
      case None => None
      case Some(i) => Some(i + 1)
  }

  function ReplaceFirst(s: string, pat: string, rep: string): string {
    match IndexOf(s, pat)
    case None => s
    case Some(i) => s[..i] + rep + s[i + |pat|..]
  }

  /** Replacing by "" cuts the first occurrence of the pattern out and keeps
      both sides of it; an absent pattern changes nothing. */
  lemma ReplaceFirstRemoves(s: string, pat: string)
    ensures IndexOf(s, pat).None? ==> ReplaceFirst(s, pat, "") == s
    ensures IndexOf(s, pat).Some? ==>
              var i := IndexOf(s, pat).value;
              ReplaceFirst(s, pat, "") == s[..i] + s[i + |pat|..]
  {
    if IndexOf(s, pat).Some? {
      var i := IndexOf(s, pat).value;
      assert s[..i] + "" == s[..i];
    }
  }

  /** A string that starts with the pattern loses exactly that prefix. */
  lemma ReplaceFirstOfPrefix(pat: string, t: string)
    ensures ReplaceFirst(pat + t, pat, "") == t
  {
    assert OccursAt(pat + t, pat, 0) by { assert (pat + t)[0..|pat|] == pat; }
    assert (pat + t)[|pat|..] == t;
  }

  // ---------------------------------------------------------------------
  // String.prototype.split with a one-character separator

  /** The pieces of `s` between occurrences of `c`; never empty, as in
      JavaScript, where "".split(c) is [""]. */
  function Split(s: string, c: char): (r: seq<string>)
    ensures |r| >= 1
  {
    if s == [] then [[]]
    else if s[0] == c then [[]] + Split(s[1..], c)
    else
      var rest := Split(s[1..], c);
      [[s[0]] + rest[0]] + rest[1..]
  }

  function Join(pieces: seq<string>, c: char): string
    requires |pieces| >= 1
  {
    if |pieces| == 1 then pieces[0] else pieces[0] + [c] + Join(pieces[1..], c)
  }

  function Last<T>(xs: seq<T>): T
    requires |xs| >= 1
  {
    xs[|xs| - 1]
  }

  /** No piece of a split contains the separator. */
  lemma {:induction false} SplitPiecesLackSeparator(s: string, c: char)
    ensures forall k :: 0 <= k < |Split(s, c)| ==> c !in Split(s, c)[k]
  {
    if s != [] {
      SplitPiecesLackSeparator(s[1..], c);
    }
  }

  /** Joining the pieces with the separator gives back the string. */
  lemma {:induction false} SplitJoin(s: string, c: char)
    ensures Join(Split(s, c), c) == s
  {
    if s != [] {
      SplitJoin(s[1..], c);
      var rest := Split(s[1..], c);
      if s[0] == c {
        assert Split(s, c)[1..] == rest;
      } else if |rest| == 1 {
        assert Split(s, c) == [[s[0]] + rest[0]];
      } else {
        var r := Split(s, c);
        assert r[1..] == rest[1..];
        assert Join(rest, c) == rest[0] + [c] + Join(rest[1..], c);
      }
    }
  }

  /** The first piece is the text before the first separator: a prefix of
      `s` that is all of `s` or is followed by the separator. */
  lemma {:induction false} SplitFirstIsPrefix(s: string, c: char)
    ensures var p := Split(s, c)[0];
      |p| <= |s| && p == s[..|p|] && c !in p && (|p| == |s| || s[|p|] == c)
  {
    SplitPiecesLackSeparator(s, c);
    if s != [] && s[0] != c {
      SplitFirstIsPrefix(s[1..], c);
      var q := Split(s[1..], c)[0];
      assert Split(s, c)[0] == [s[0]] + q;
      assert s == [s[0]] + s[1..];
    }
  }

  /** Joining n > 1 pieces is joining the first n - 1, the separator, and the last. */
  lemma {:induction false} JoinSplitsOffLast(pieces: seq<string>, c: char)
    requires |pieces| > 1
    ensures Join(pieces, c) == Join(pieces[..|pieces| - 1], c) + [c] + Last(pieces)
  {
    if |pieces| > 2 {
      JoinSplitsOffLast(pieces[1..], c);
      assert pieces[1..][..|pieces| - 2] == pieces[..|pieces| - 1][1..];
    }
  }

  /** The last piece is the text after the last separator: a suffix of `s`
      that is all of `s` or is preceded by the separator. */
  lemma SplitLastIsSuffix(s: string, c: char)
    ensures var q := Last(Split(s, c));
      |q| <= |s| && q == s[|s| - |q|..] && c !in q && (|q| == |s| || s[|s| - |q| - 1] == c)
  {
    SplitPiecesLackSeparator(s, c);
    SplitJoin(s, c);
    var pieces := Split(s, c);
    if |pieces| > 1 {
      JoinSplitsOffLast(pieces, c);
      var front := Join(pieces[..|pieces| - 1], c);
      assert s == front + [c] + Last(pieces);
      assert s[|s| - |Last(pieces)|..] == Last(pieces);
      assert s[|s| - |Last(pieces)| - 1] == c;
    }
  }
}
