/** The JavaScript string operations the components rely on: `join`, `split`,
    `indexOf`, `startsWith` and `trim`, on strings as sequences of characters. */
module Strings {

  /** `parts.join(sep)`. */
  function Join(parts: seq<string>, sep: string): string
  {
    if |parts| == 0 then ""
    else if |parts| == 1 then parts[0]
    else parts[0] + sep + Join(parts[1..], sep)
  }

  /** Joining two non-empty lists is joining each and putting one separator
      between the results. */
  lemma {:induction false} JoinAppend(a: seq<string>, b: seq<string>, sep: string)
    requires |a| >= 1 && |b| >= 1
    decreases |a|
    ensures Join(a + b, sep) == Join(a, sep) + sep + Join(b, sep)
  {
    assert (a + b)[0] == a[0];
    if |a| == 1 {
      assert (a + b)[1..] == b;
    } else {
      assert (a + b)[1..] == a[1..] + b;
      JoinAppend(a[1..], b, sep);
    }
  }

  /** `s.startsWith(prefix)`. */
  predicate StartsWith(s: string, prefix: string)
  {
    |prefix| <= |s| && s[..|prefix|] == prefix
  }

  /** `pat` occurs in `s` starting at index `i`. */
  predicate OccursAt(s: string, pat: string, i: int)
  {
    0 <= i && i + |pat| <= |s| && s[i..i + |pat|] == pat
  }

  /** `s.indexOf(pat, from)`: the first occurrence at or after `from`, or -1. */
  function IndexOfFrom(s: string, pat: string, from: nat): (r: int)
    requires pat != []
    decreases |s| - from
    ensures r == -1 || (from <= r && OccursAt(s, pat, r))
  {
    if from + |pat| > |s| then -1
    else if s[from..from + |pat|] == pat then from
    else IndexOfFrom(s, pat, from + 1)
  }

  /** `s.indexOf(pat)`. */
  function IndexOf(s: string, pat: string): (r: int)
    requires pat != []
    ensures r == -1 || OccursAt(s, pat, r)
  {
    IndexOfFrom(s, pat, 0)
  }

  /** No occurrence of `pat` at or after `from` precedes the one `IndexOfFrom`
      reports; when it reports -1 there is none at all. */
  lemma {:induction false} IndexOfFromIsFirst(s: string, pat: string, from: nat, j: int)
    requires pat != [] && from <= j
    requires IndexOfFrom(s, pat, from) == -1 || j < IndexOfFrom(s, pat, from)
    decreases |s| - from
    ensures !OccursAt(s, pat, j)
  {
    if from + |pat| <= |s| && s[from..from + |pat|] != pat && j > from {
      IndexOfFromIsFirst(s, pat, from + 1, j);
    }
  }

  /** `IndexOf` is -1 exactly when `pat` does not occur, and otherwise the
      first occurrence. */
  lemma IndexOfIsFirst(s: string, pat: string)
    requires pat != []
    ensures IndexOf(s, pat) == -1 <==> forall j :: !OccursAt(s, pat, j)
    ensures forall j :: j < IndexOf(s, pat) ==> !OccursAt(s, pat, j)
  {
    forall j | IndexOf(s, pat) == -1 || j < IndexOf(s, pat)
      ensures !OccursAt(s, pat, j)
    {
      if 0 <= j { IndexOfFromIsFirst(s, pat, 0, j); }
    }
  }

  /** Searching for a single character: -1 exactly when it is absent, and
      otherwise the index of its first occurrence. */
  lemma IndexOfChar(s: string, c: char)
    ensures var i := IndexOf(s, [c]);
      (i == -1 <==> c !in s) && (i != -1 ==> s[i] == c && c !in s[..i])
  {
    var i := IndexOf(s, [c]);
    IndexOfIsFirst(s, [c]);
    forall j | 0 <= j < |s|
      ensures OccursAt(s, [c], j) <==> s[j] == c
    {
      assert s[j..j + 1] == [s[j]];
    }
    if i != -1 {
      assert s[i..i + 1] == [c];
      forall j | 0 <= j < i ensures s[..i][j] != c {
        assert !OccursAt(s, [c], j);
      }
    } else {
      forall j | 0 <= j < |s| ensures s[j] != c {
        assert !OccursAt(s, [c], j);
      }
    }
  }

  /** `s.split(sep)` for a non-empty separator: the pieces between occurrences
      of `sep`, found left to right; a string without `sep` is one piece. */
  function Split(s: string, sep: string): (parts: seq<string>)
    requires sep != []
    decreases |s|
    ensures |parts| >= 1
  {
    var i := IndexOf(s, sep);
    if i == -1 then [s] else [s[..i]] + Split(s[i + |sep|..], sep)
  }

  /** Splitting on a single character leaves that character in no piece. */
  lemma {:induction false} SplitPiecesAvoidSeparator(s: string, c: char)
    decreases |s|
    ensures forall k :: 0 <= k < |Split(s, [c])| ==> c !in Split(s, [c])[k]
  {
    var i := IndexOf(s, [c]);
    IndexOfChar(s, c);
    if i != -1 {
      var rest := s[i + 1..];
      SplitPiecesAvoidSeparator(rest, c);
      assert Split(s, [c]) == [s[..i]] + Split(rest, [c]);
    } else {
      assert Split(s, [c]) == [s];
    }
  }

  /** Joining the pieces of a split with the same separator restores the string. */
  lemma {:induction false} JoinSplit(s: string, sep: string)
    requires sep != []
    decreases |s|
    ensures Join(Split(s, sep), sep) == s
  {
    var i := IndexOf(s, sep);
    if i != -1 {
      var rest := s[i + |sep|..];
      var parts := Split(s, sep);
      JoinSplit(rest, sep);
      assert parts == [s[..i]] + Split(rest, sep);
      assert |parts| >= 2 && parts[1..] == Split(rest, sep);
      assert Join(parts, sep) == s[..i] + sep + rest;
      assert OccursAt(s, sep, i);
      assert s[i..i + |sep|] == sep;
      assert s[..i] + s[i..i + |sep|] + rest == s;
    } else {
      assert Split(s, sep) == [s];
    }
  }

  /** A string without the first character of `sep` has no occurrence of `sep`
      before its end, even when more text follows it. */
  lemma NoOccurrenceWithin(p: string, tail: string, sep: string)
    requires sep != [] && sep[0] !in p
    ensures forall j :: j < |p| ==> !OccursAt(p + tail, sep, j)
  {
    forall j | j < |p|
      ensures !OccursAt(p + tail, sep, j)
    {
      if 0 <= j {
        assert (p + tail)[j] == p[j];
        assert p[j] in p;
      }
    }
  }

  /** Splitting a join gives back the pieces, provided no piece contains the
      separator's first character. */
  lemma {:induction false} SplitJoin(parts: seq<string>, sep: string)
    requires sep != [] && |parts| >= 1
    requires forall k :: 0 <= k < |parts| ==> sep[0] !in parts[k]
    ensures Split(Join(parts, sep), sep) == parts
  {
    var p := parts[0];
    if |parts| == 1 {
      NoOccurrenceWithin(p, "", sep);
      assert p + "" == p;
      IndexOfIsFirst(p, sep);
    } else {
      var rest := Join(parts[1..], sep);
      var s := p + sep + rest;
      NoOccurrenceWithin(p, sep + rest, sep);
      assert p + (sep + rest) == s;
      assert OccursAt(s, sep, |p|) by { assert s[|p|..|p| + |sep|] == sep; }
      IndexOfIsFirst(s, sep);
      assert IndexOf(s, sep) == |p|;
      assert s[..|p|] == p;
      assert s[|p| + |sep|..] == rest;
      SplitJoin(parts[1..], sep);
      assert parts == [p] + parts[1..];
    }
  }

  /** White space as JavaScript's `trim` understands it: the WhiteSpace and
      LineTerminator characters of ECMAScript. */
  predicate IsSpace(c: char)
  {
    c in {' ', '\t', '\n', '\r', '\U{B}', '\U{C}', '\U{A0}', '\U{FEFF}', '\U{1680}',
          '\U{2028}', '\U{2029}', '\U{202F}', '\U{205F}', '\U{3000}'}
    || ('\U{2000}' <= c <= '\U{200A}')
  }

  /** `s.trimStart()`. */
  function TrimStart(s: string): (r: string)
    ensures |r| <= |s| && r == s[|s| - |r|..]
    ensures forall k :: 0 <= k < |s| - |r| ==> IsSpace(s[k])
    ensures r != [] ==> !IsSpace(r[0])
  {
    if s != [] && IsSpace(s[0]) then TrimStart(s[1..]) else s
  }

  /** `s.trimEnd()`. */
  function TrimEnd(s: string): (r: string)
    ensures |r| <= |s| && r == s[..|r|]
    ensures forall k :: |r| <= k < |s| ==> IsSpace(s[k])
    ensures r != [] ==> !IsSpace(r[|r| - 1])
  {
    if s != [] && IsSpace(s[|s| - 1]) then TrimEnd(s[..|s| - 1]) else s
  }

  /** `s.trim()`: empty exactly when `s` is all white space, and otherwise
      starting and ending with a non-space character. */
  function Trim(s: string): (r: string)
    ensures |r| <= |s|
    ensures r == [] <==> forall k :: 0 <= k < |s| ==> IsSpace(s[k])
    ensures r != [] ==> !IsSpace(r[0]) && !IsSpace(r[|r| - 1])
  {
    var t := TrimStart(s);
    var r := TrimEnd(t);
    assert r == [] ==> t == [];
    assert r != [] ==> !IsSpace(r[0]) by {
      if r != [] { assert r[0] == t[0]; }
    }
    r
  }

  /** `s.length`: JavaScript measures strings in UTF-16 code units, so a
      character outside the Basic Multilingual Plane counts twice. */
  function Utf16Length(s: string): (n: nat)
    ensures |s| <= n <= 2 * |s|
  {
    if s == [] then 0 else (if s[0] as int > 0xFFFF then 2 else 1) + Utf16Length(s[1..])
  }

  /** Text made of Basic Multilingual Plane characters only has as many
      code units as characters. */
  lemma {:induction false} Utf16LengthOfBmp(s: string)
    requires forall k :: 0 <= k < |s| ==> s[k] as int <= 0xFFFF
    ensures Utf16Length(s) == |s|
  {
    if s != [] {
      Utf16LengthOfBmp(s[1..]);
    }
  }
}
