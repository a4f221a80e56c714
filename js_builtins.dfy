/** The few JavaScript built-ins the chat front-end relies on, with the
    semantics ECMAScript gives them: Array.prototype.flat (one level),
    Array.prototype.slice(start), Array.prototype.splice(start, 1),
    String.prototype.trim and String.prototype.includes. Strings are
    sequences of characters. */
module JsBuiltins {

  datatype Option<+T> = None | Some(value: T)

  datatype Result<+T> = Ok(value: T) | Err(message: string)

  lemma AppendAssoc<T>(a: seq<T>, b: seq<T>, c: seq<T>)
    ensures a + (b + c) == (a + b) + c
  {
  }

  function Min(a: int, b: int): int { if a <= b then a else b }

  function Max(a: int, b: int): int { if a <= b then b else a }

  // ---------------------------------------------------------------- arrays

  /** `groups.flat()`: the groups laid end to end, in order. */
  function Flat<T>(groups: seq<seq<T>>): seq<T>
  {
    if groups == [] then [] else groups[0] + Flat(groups[1..])
  }

  lemma {:induction false} FlatAppend<T>(a: seq<seq<T>>, b: seq<seq<T>>)
    ensures Flat(a + b) == Flat(a) + Flat(b)
  {
    if a == [] {
      assert a + b == b;
    } else {
      assert (a + b)[1..] == a[1..] + b;
      FlatAppend(a[1..], b);
    }
  }

  /** The flattening is empty exactly when every group is. */
  lemma {:induction false} FlatEmpty<T>(groups: seq<seq<T>>)
    ensures Flat(groups) == [] <==> forall g :: 0 <= g < |groups| ==> groups[g] == []
  {
    if groups != [] {
      FlatEmpty(groups[1..]);
      assert forall g :: 1 <= g < |groups| ==> groups[g] == groups[1..][g - 1];
    }
  }

  lemma FlatSingle<T>(g: seq<T>)
    ensures Flat([g]) == g
  {
    assert [g][1..] == [];
  }

  /** One more group adds its elements at the end. */
  lemma FlatSnoc<T>(groups: seq<seq<T>>, g: seq<T>)
    ensures Flat(groups + [g]) == Flat(groups) + g
  {
    FlatAppend(groups, [g]);
    FlatSingle(g);
  }

  /** Cutting the groups anywhere cuts the flattening at the matching place. */
  lemma FlatSplit<T>(groups: seq<seq<T>>, j: int)
    requires 0 <= j <= |groups|
    ensures Flat(groups) == Flat(groups[..j]) + Flat(groups[j..])
  {
    assert groups[..j] + groups[j..] == groups;
    FlatAppend(groups[..j], groups[j..]);
  }

  /** The part group `j` contributes to the flattening: everything before
      it, then it, then everything after it. */
  lemma FlatAt<T>(groups: seq<seq<T>>, j: int)
    requires 0 <= j < |groups|
    ensures Flat(groups) == Flat(groups[..j]) + groups[j] + Flat(groups[j + 1..])
  {
    FlatSplit(groups, j);
    var post := groups[j..];
    assert post[1..] == groups[j + 1..];
    assert Flat(post) == groups[j] + Flat(groups[j + 1..]);
  }

  /** Where `slice(start)` starts reading, for an array of length `len`:
      a negative start counts back from the end, clamped to the array. */
  function SliceStart(len: nat, start: int): (k: nat)
    ensures k <= len
    ensures start >= 0 ==> k == Min(start, len)
    ensures start < 0 ==> k == Max(len + start, 0)
  {
    if start < 0 then (if len + start < 0 then 0 else len + start)
    else if start < len then start else len
  }

  /** `s.slice(start)`, a fresh array; `s` itself is not touched. */
  function SliceFrom<T>(s: seq<T>, start: int): seq<T>
  {
    s[SliceStart(|s|, start)..]
  }

  /** `s.slice(-n)` for a positive `n` holds the last min(n, |s|) elements,
      in their original order. */
  lemma SliceLast<T>(s: seq<T>, n: int)
    requires n > 0
    ensures |SliceFrom(s, -n)| == Min(n, |s|)
    ensures SliceFrom(s, -n) == s[|s| - Min(n, |s|)..]
  {
  }

  /** Once the array holds at least `n` elements, appending one element
      slides the `slice(-n)` window by one. */
  lemma {:induction false} SliceLastSlides<T>(s: seq<T>, x: T, n: int)
    requires 0 < n <= |s|
    ensures SliceFrom(s + [x], -n) == SliceFrom(s, -n)[1..] + [x]
  {
    var k := |s| - n;
    assert SliceFrom(s + [x], -n) == (s + [x])[k + 1..];
    assert SliceFrom(s, -n) == s[k..];
    assert (s + [x])[k + 1..] == s[k + 1..] + [x];
  }

  /** The index `splice(start, 1)` removes at, for an array of length `len`
      (it removes nothing when this equals `len`). */
  function SpliceStart(len: nat, start: int): (k: nat)
    ensures k <= len
  {
    SliceStart(len, start)
  }

  /** `a.splice(start, 1)` applied in place: the element at the computed
      start, if there is one, is removed. */
  function SpliceOne<T>(a: seq<T>, start: int): (r: seq<T>)
    ensures var k := SpliceStart(|a|, start);
      if k < |a| then
        |r| == |a| - 1
        && (forall j :: 0 <= j < k ==> r[j] == a[j])
        && (forall j :: k <= j < |r| ==> r[j] == a[j + 1])
      else r == a
  {
    var k := SpliceStart(|a|, start);
    if k < |a| then a[..k] + a[k + 1..] else a
  }

  // --------------------------------------------------------------- strings

  /** The decimal digits a non-negative integer is written with when it is
      put into a template string, most significant first. */
  function NumberToString(n: nat): (digits: string)
    ensures |digits| >= 1
    ensures forall i :: 0 <= i < |digits| ==> '0' <= digits[i] <= '9'
    ensures n < 10 <==> |digits| == 1
    ensures digits[0] == '0' <==> n == 0
  {
    if n < 10 then [Digit(n)] else NumberToString(n / 10) + [Digit(n % 10)]
  }

  function Digit(d: nat): (c: char)
    requires d < 10
    ensures '0' <= c <= '9' && c as int - '0' as int == d
  {
    ('0' as int + d) as char
  }

  /** The number a run of decimal digits denotes. */
  function DigitsValue(digits: string): nat
    requires forall i :: 0 <= i < |digits| ==> '0' <= digits[i] <= '9'
  {
    if digits == [] then 0
    else 10 * DigitsValue(digits[..|digits| - 1]) + (digits[|digits| - 1] as int - '0' as int)
  }

  /** Reading the digits back gives the number. */
  lemma {:induction false} NumberToStringValue(n: nat)
    ensures DigitsValue(NumberToString(n)) == n
  {
    var s := NumberToString(n);
    if n >= 10 {
      NumberToStringValue(n / 10);
      assert s[..|s| - 1] == NumberToString(n / 10);
    }
  }

  /** The characters `String.prototype.trim` strips: ECMAScript's
      WhiteSpace (tab, vertical tab, form feed, space, no-break space,
      byte order mark and the other space separators) and LineTerminator
      (line feed, carriage return, line and paragraph separators). */
  const JsWhitespaceChars: set<char> :=
    {'\t', '\n', '\U{000B}', '\U{000C}', '\r', ' ', '\U{00A0}', '\U{1680}',
     '\U{2000}', '\U{2001}', '\U{2002}', '\U{2003}', '\U{2004}', '\U{2005}', '\U{2006}',
     '\U{2007}', '\U{2008}', '\U{2009}', '\U{200A}',
     '\U{2028}', '\U{2029}', '\U{202F}', '\U{205F}', '\U{3000}', '\U{FEFF}'}

  /** A character `trim` strips. */
  predicate IsJsWhitespace(c: char)
  {
    c in JsWhitespaceChars
  }

  function TrimStart(s: string): (r: string)
    ensures |r| <= |s| && r == s[|s| - |r|..]
    ensures forall i :: 0 <= i < |s| - |r| ==> IsJsWhitespace(s[i])
    ensures r == [] || !IsJsWhitespace(r[0])
  {
    if s != [] && IsJsWhitespace(s[0]) then
      var r := TrimStart(s[1..]);
      assert s[1..][|s| - 1 - |r|..] == s[|s| - |r|..];
      assert forall i :: 1 <= i < |s| - |r| ==> s[i] == s[1..][i - 1];
      r
    else s
  }

  function TrimEnd(s: string): (r: string)
    ensures |r| <= |s| && r == s[..|r|]
    ensures forall i :: |r| <= i < |s| ==> IsJsWhitespace(s[i])
    ensures r == [] || !IsJsWhitespace(r[|r| - 1])
  {
    if s != [] && IsJsWhitespace(s[|s| - 1]) then
      var r := TrimEnd(s[..|s| - 1]);
      assert s[..|s| - 1][..|r|] == s[..|r|];
      assert forall i :: |r| <= i < |s| - 1 ==> s[i] == s[..|s| - 1][i];
      r
    else s
  }

  /** `r` is `s` with its first `lo` characters and some trailing
      characters cut off, everything cut is whitespace, and `r` neither
      starts nor ends with whitespace. */
  predicate TrimmedFrom(s: string, lo: int, r: string)
  {
    0 <= lo && lo + |r| <= |s| && r == s[lo..lo + |r|]
    && (forall i :: 0 <= i < lo ==> IsJsWhitespace(s[i]))
    && (forall i :: lo + |r| <= i < |s| ==> IsJsWhitespace(s[i]))
    && (r == [] || (!IsJsWhitespace(r[0]) && !IsJsWhitespace(r[|r| - 1])))
  }

  /** `s.trim()`: the input with its leading and trailing whitespace cut
      off. */
  function Trim(s: string): (r: string)
    ensures TrimmedFrom(s, |s| - |TrimStart(s)|, r)
  {
    var rest := TrimStart(s);
    var r := TrimEnd(rest);
    TrimmedPiece(s, rest, r);
    r
  }

  /** The piece `trim` keeps, as cut by `TrimStart` and then `TrimEnd`. */
  lemma TrimmedPiece(s: string, rest: string, r: string)
    requires |rest| <= |s| && rest == s[|s| - |rest|..]
    requires forall i :: 0 <= i < |s| - |rest| ==> IsJsWhitespace(s[i])
    requires rest == [] || !IsJsWhitespace(rest[0])
    requires |r| <= |rest| && r == rest[..|r|]
    requires forall i :: |r| <= i < |rest| ==> IsJsWhitespace(rest[i])
    requires r == [] || !IsJsWhitespace(r[|r| - 1])
    ensures TrimmedFrom(s, |s| - |rest|, r)
  {
    var lo := |s| - |rest|;
    assert r == s[lo..lo + |r|];
    forall i | lo + |r| <= i < |s|
      ensures IsJsWhitespace(s[i])
    {
      assert s[i] == rest[i - lo];
    }
    if r != [] {
      assert r[0] == rest[0];
    }
  }

  /** The message box counts as empty exactly when it holds only whitespace. */
  lemma TrimEmptyIffBlank(s: string)
    ensures Trim(s) == [] <==> forall i :: 0 <= i < |s| ==> IsJsWhitespace(s[i])
  {
    var r := Trim(s);
    var lo := |s| - |TrimStart(s)|;
    if r != [] {
      assert r[0] == s[lo];
    }
  }

  /** `t` occurs in `s` starting at index `i`. */
  predicate OccursAt(s: string, t: string, i: int)
  {
    0 <= i <= |s| - |t| && s[i..i + |t|] == t
  }

  /** `s.includes(t)`: `t` occurs in `s` at some position. */
  predicate Includes(s: string, t: string)
    decreases |s|
  {
    t <= s || (s != [] && Includes(s[1..], t))
  }

  lemma {:induction false} IncludesIffOccurs(s: string, t: string)
    ensures Includes(s, t) <==> exists i :: OccursAt(s, t, i)
    decreases |s|
  {
    if t <= s {
      assert OccursAt(s, t, 0);
    } else if s == [] {
      assert forall i :: !OccursAt(s, t, i);
    } else {
      IncludesIffOccurs(s[1..], t);
      forall i | OccursAt(s, t, i)
        ensures OccursAt(s[1..], t, i - 1)
      {
        OccursShift(s, t, i);
      }
      forall j | OccursAt(s[1..], t, j)
        ensures OccursAt(s, t, j + 1)
      {
        OccursUnshift(s, t, j);
      }
    }
  }

  /** An occurrence past the first character is an occurrence in the tail. */
  lemma OccursShift(s: string, t: string, i: int)
    requires s != [] && !(t <= s) && OccursAt(s, t, i)
    ensures OccursAt(s[1..], t, i - 1)
  {
    assert i != 0;
    assert s[1..][i - 1..i - 1 + |t|] == s[i..i + |t|];
  }

  /** An occurrence in the tail is an occurrence one further on. */
  lemma OccursUnshift(s: string, t: string, j: int)
    requires s != [] && OccursAt(s[1..], t, j)
    ensures OccursAt(s, t, j + 1)
  {
    assert s[j + 1..j + 1 + |t|] == s[1..][j..j + |t|];
  }

  /** `s.startsWith(prefix)`. */
  predicate StartsWith(s: string, prefix: string)
  {
    prefix <= s
  }

  /** The pieces of `s.split(sep)` for a one-character separator: the runs
      between separators, in order; a string without the separator is one
      piece, so there is always at least one. */
  function Split(s: string, sep: char): (pieces: seq<string>)
    ensures |pieces| >= 1
    ensures forall p :: 0 <= p < |pieces| ==> sep !in pieces[p]
    decreases |s|
  {
    if sep !in s then [s]
    else
      var i := IndexOf(s, sep);
      [s[..i]] + Split(s[i + 1..], sep)
  }

  /** Index of the first occurrence of `c` in `s`. */
  function IndexOf(s: string, c: char): (i: nat)
    requires c in s
    ensures i < |s| && s[i] == c
    ensures forall j :: 0 <= j < i ==> s[j] != c
  {
    if s[0] == c then 0 else 1 + IndexOf(s[1..], c)
  }

  /** `pieces.join(sep)`. */
  function Join(pieces: seq<string>, sep: char): string
    requires |pieces| >= 1
  {
    if |pieces| == 1 then pieces[0] else pieces[0] + [sep] + Join(pieces[1..], sep)
  }

  /** Splitting loses nothing: joining the pieces gives the string back. */
  lemma {:induction false} JoinSplit(s: string, sep: char)
    ensures Join(Split(s, sep), sep) == s
    decreases |s|
  {
    if sep in s {
      var i := IndexOf(s, sep);
      JoinSplit(s[i + 1..], sep);
      assert Split(s, sep)[1..] == Split(s[i + 1..], sep);
      assert s == s[..i] + [sep] + s[i + 1..];
    }
  }

  /** And conversely: pieces free of the separator are split back apart. */
  lemma {:induction false} SplitJoin(pieces: seq<string>, sep: char)
    requires |pieces| >= 1
    requires forall p :: 0 <= p < |pieces| ==> sep !in pieces[p]
    ensures Split(Join(pieces, sep), sep) == pieces
    decreases |pieces|
  {
    if |pieces| > 1 {
      SplitJoin(pieces[1..], sep);
      SplitAfterPiece(pieces[0], sep, Join(pieces[1..], sep));
      assert pieces == [pieces[0]] + pieces[1..];
    }
  }

  /** A piece without the separator, the separator and a rest split into
      that piece followed by the pieces of the rest. */
  lemma SplitAfterPiece(head: string, sep: char, rest: string)
    requires sep !in head
    ensures Split(head + [sep] + rest, sep) == [head] + Split(rest, sep)
  {
    var s := head + [sep] + rest;
    assert s[|head|] == sep;
    assert s[..|head|] == head;
    assert s[|head| + 1..] == rest;
  }

  /** Splitting at one separator splits the pieces on each side apart. */
  lemma {:induction false} SplitAround(x: string, sep: char, y: string)
    ensures Split(x + [sep] + y, sep) == Split(x, sep) + Split(y, sep)
    decreases |x|
  {
    if sep !in x {
      SplitAfterPiece(x, sep, y);
    } else {
      var i := IndexOf(x, sep);
      SplitAtFirst(x, sep);
      var head, tail := x[..i], x[i + 1..];
      SplitAround(tail, sep, y);
      SplitAroundStep(head, tail, sep, y);
    }
  }

  /** A string holding the separator is the piece before its first
      occurrence, the separator, and the rest. */
  lemma SplitAtFirst(x: string, sep: char)
    requires sep in x
    ensures var i := IndexOf(x, sep);
      sep !in x[..i] && x == x[..i] + [sep] + x[i + 1..]
  {
    var i := IndexOf(x, sep);
    forall j | 0 <= j < i ensures x[..i][j] != sep {
      assert x[..i][j] == x[j];
    }
  }

  /** The inductive step of `SplitAround`. */
  lemma SplitAroundStep(head: string, tail: string, sep: char, y: string)
    requires sep !in head
    requires Split(tail + [sep] + y, sep) == Split(tail, sep) + Split(y, sep)
    ensures Split(head + [sep] + tail + [sep] + y, sep) == Split(head + [sep] + tail, sep) + Split(y, sep)
  {
    var front := head + [sep];
    AppendAssoc(front, tail, [sep]);
    AppendAssoc(front, tail + [sep], y);
    SplitAfterPiece(head, sep, tail);
    SplitAfterPiece(head, sep, tail + [sep] + y);
    AppendAssoc([head], Split(tail, sep), Split(y, sep));
  }
}
