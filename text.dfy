/** The string operations of the Kotlin/Java standard library that the structure
    builder relies on: `indexOf`, `split` on a one-character delimiter,
    `trim`, and removal of the characters of the class `[()]`. */
module Text {

  /** Position of the first `c` in `s`, or `|s|` when there is none
      (`IndexOfMeaning`). */
  function IndexOf(s: string, c: char): (k: nat)
    ensures k <= |s|
  {
    if s == [] then 0
    else if s[0] == c then 0
    else 1 + IndexOf(s[1..], c)
  }

  lemma {:induction false} IndexOfMeaning(s: string, c: char)
    ensures var k := IndexOf(s, c);
      && (k < |s| ==> s[k] == c)
      && forall j :: 0 <= j < k ==> s[j] != c
  {
    if s != [] && s[0] != c {
      IndexOfMeaning(s[1..], c);
      assert forall j :: 1 <= j < |s| ==> s[j] == s[1..][j - 1];
    }
  }

  /** `IndexOf` is the only position that holds `c` and has no `c` before it. */
  lemma IndexOfUnique(s: string, c: char, k: nat)
    requires k <= |s| && (k < |s| ==> s[k] == c)
    requires forall j :: 0 <= j < k ==> s[j] != c
    ensures IndexOf(s, c) == k
  {
    IndexOfMeaning(s, c);
  }

  /** `s.split(sep)`: every occurrence of `sep` is a cut, empty pieces are kept
      (leading, inner and trailing), and a string without `sep` is one piece. */
  function Split(s: string, sep: char): (parts: seq<string>)
    ensures |parts| >= 1
    decreases |s|
  {
    var k := IndexOf(s, sep);
    if k == |s| then [s]
    else [s[..k]] + Split(s[k + 1..], sep)
  }

  /** No piece holds the delimiter. */
  lemma {:induction false} SplitPieces(s: string, sep: char)
    ensures forall i :: 0 <= i < |Split(s, sep)| ==> sep !in Split(s, sep)[i]
    decreases |s|
  {
    var k := IndexOf(s, sep);
    IndexOfMeaning(s, sep);
    if k < |s| {
      SplitPieces(s[k + 1..], sep);
      var rest := Split(s[k + 1..], sep);
      var parts := [s[..k]] + rest;
      assert Split(s, sep) == parts;
      assert sep !in s[..k] by {
        assert forall j :: 0 <= j < k ==> s[..k][j] == s[j];
      }
      forall i | 0 <= i < |parts| ensures sep !in parts[i] {
        if i > 0 {
          assert parts[i] == rest[i - 1];
        }
      }
    }
  }

  /** The inverse of `Split`: the pieces glued back with the delimiter. */
  function Join(parts: seq<string>, sep: char): string
    requires |parts| >= 1
  {
    if |parts| == 1 then parts[0]
    else parts[0] + [sep] + Join(parts[1..], sep)
  }

  lemma {:induction false} JoinSplit(s: string, sep: char)
    ensures Join(Split(s, sep), sep) == s
    decreases |s|
  {
    var k := IndexOf(s, sep);
    IndexOfMeaning(s, sep);
    if k < |s| {
      var rest := Split(s[k + 1..], sep);
      var parts := [s[..k]] + rest;
      assert Split(s, sep) == parts;
      assert parts[1..] == rest;
      assert Join(parts, sep) == s[..k] + [sep] + Join(rest, sep);
      JoinSplit(s[k + 1..], sep);
      assert s == s[..k] + [sep] + s[k + 1..];
    }
  }

  lemma {:induction false} SplitJoin(parts: seq<string>, sep: char)
    requires |parts| >= 1
    requires forall i :: 0 <= i < |parts| ==> sep !in parts[i]
    ensures Split(Join(parts, sep), sep) == parts
  {
    if |parts| == 1 {
      var p := parts[0];
      IndexOfUnique(p, sep, |p|);
    } else {
      var s := Join(parts, sep);
      var rest := Join(parts[1..], sep);
      var p := parts[0];
      assert s == p + [sep] + rest;
      assert s[|p|] == sep;
      assert s[..|p|] == p;
      IndexOfUnique(s, sep, |p|);
      assert s[|p| + 1..] == rest;
      SplitJoin(parts[1..], sep);
      assert parts == [p] + parts[1..];
    }
  }

  /** Characters of the regular-expression class `[()]`. */
  predicate IsParen(c: char) {
    c == '(' || c == ')'
  }

  /** `s.replace(Regex("[()]"), "")`: the characters of `s` in order, every
      parenthesis dropped. */
  function RemoveParens(s: string): (r: string)
    ensures |r| <= |s|
  {
    if s == [] then []
    else (if IsParen(s[0]) then [] else [s[0]]) + RemoveParens(s[1..])
  }

  /** No parenthesis is left, and a string without one is unchanged. */
  lemma {:induction false} RemoveParensMeaning(s: string)
    ensures var r := RemoveParens(s);
      && (forall i :: 0 <= i < |r| ==> !IsParen(r[i]))
      && ((forall i :: 0 <= i < |s| ==> !IsParen(s[i])) ==> r == s)
  {
    if s != [] {
      RemoveParensMeaning(s[1..]);
      var h: string := if IsParen(s[0]) then [] else [s[0]];
      var t := RemoveParens(s[1..]);
      assert RemoveParens(s) == h + t;
      assert forall i :: |h| <= i < |h + t| ==> (h + t)[i] == t[i - |h|];
      assert forall i :: 1 <= i < |s| ==> s[i] == s[1..][i - 1];
      if forall i :: 0 <= i < |s| ==> !IsParen(s[i]) {
        assert !IsParen(s[0]);
        assert s == [s[0]] + s[1..];
      }
    }
  }

  lemma {:induction false} RemoveParensAppend(a: string, b: string)
    ensures RemoveParens(a + b) == RemoveParens(a) + RemoveParens(b)
  {
    if a == [] {
      assert a + b == b;
    } else {
      assert (a + b)[0] == a[0];
      assert (a + b)[1..] == a[1..] + b;
      RemoveParensAppend(a[1..], b);
    }
  }

  /** Removing parentheses twice is removing them once. */
  lemma RemoveParensIdempotent(s: string)
    ensures RemoveParens(RemoveParens(s)) == RemoveParens(s)
  {
    RemoveParensMeaning(s);
    RemoveParensMeaning(RemoveParens(s));
  }

  /** Java's `String.trim`: drops every leading and trailing character whose
      code is at most U+0020. */
  predicate IsTrimmed(c: char) {
    c <= ' '
  }

  function TrimStart(s: string): string {
    if s != [] && IsTrimmed(s[0]) then TrimStart(s[1..]) else s
  }

  function TrimEnd(s: string): string {
    if s != [] && IsTrimmed(s[|s| - 1]) then TrimEnd(s[..|s| - 1]) else s
  }

  function Trim(s: string): string {
    TrimEnd(TrimStart(s))
  }

  /** `TrimStart` keeps a suffix that does not begin with a trimmed character
      and drops only trimmed characters. */
  lemma {:induction false} TrimStartMeaning(s: string)
    ensures var r := TrimStart(s);
      && |r| <= |s| && r == s[|s| - |r|..]
      && (r != [] ==> !IsTrimmed(r[0]))
      && forall i :: 0 <= i < |s| - |r| ==> IsTrimmed(s[i])
  {
    if s != [] && IsTrimmed(s[0]) {
      TrimStartMeaning(s[1..]);
      var r := TrimStart(s[1..]);
      assert forall i :: 1 <= i < |s| - |r| ==> s[i] == s[1..][i - 1];
    }
  }

  /** `TrimEnd` keeps a prefix that does not end with a trimmed character and
      drops only trimmed characters. */
  lemma {:induction false} TrimEndMeaning(s: string)
    ensures var r := TrimEnd(s);
      && |r| <= |s| && r == s[..|r|]
      && (r != [] ==> !IsTrimmed(r[|r| - 1]))
      && forall i :: |r| <= i < |s| ==> IsTrimmed(s[i])
  {
    if s != [] && IsTrimmed(s[|s| - 1]) {
      TrimEndMeaning(s[..|s| - 1]);
    }
  }

  /** A string that neither begins nor ends with a trimmed character is its own trim. */
  lemma TrimNoop(s: string)
    requires s != [] ==> !IsTrimmed(s[0]) && !IsTrimmed(s[|s| - 1])
    ensures Trim(s) == s
  {
  }

  /** Trimming twice is trimming once. */
  lemma TrimIdempotent(s: string)
    ensures Trim(Trim(s)) == Trim(s)
  {
    TrimStartMeaning(s);
    var t := TrimStart(s);
    TrimEndMeaning(t);
    var r := TrimEnd(t);
    if r != [] {
      assert r[0] == t[0];
    }
    TrimNoop(r);
  }
}
