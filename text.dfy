/** An optional value: JavaScript's `null` / `undefined` next to a present value. */
module Wrappers {
  datatype Option<+T> = None | Some(value: T)
}

/**
 * The string operations the backend takes from JavaScript: the white-space
 * class shared by `trim()` and the regex escape `\s`, ASCII `toLowerCase()`,
 * `indexOf` / `includes`, `split` on one character, `join`, and the global
 * `replace` forms used on model replies and SQL text.
 */
module Text {

  /** Regrouping a concatenation of three strings. */
  lemma AppendAssoc(a: string, b: string, c: string)
    ensures (a + b) + c == a + (b + c)
  {
  }

  /** White space and line terminators as ECMAScript defines them. */
  predicate IsSpace(c: char) {
    || c == ' ' || c == '\t' || c == '\n' || c == '\r' || c == '\U{B}' || c == '\U{C}'
    || c == '\U{A0}' || c == '\U{1680}' || ('\U{2000}' <= c <= '\U{200A}')
    || c == '\U{2028}' || c == '\U{2029}' || c == '\U{202F}' || c == '\U{205F}'
    || c == '\U{3000}' || c == '\U{FEFF}'
  }

  /** `s.trim() === ''`: the string is empty or made of white space only. */
  predicate IsBlank(s: string) {
    forall k :: 0 <= k < |s| ==> IsSpace(s[k])
  }

  /** The characters the regex class `\w` matches. */
  predicate IsWordChar(c: char) {
    ('a' <= c <= 'z') || ('A' <= c <= 'Z') || ('0' <= c <= '9') || c == '_'
  }

  // ---------------------------------------------------------------------------
  // trim()
  // ---------------------------------------------------------------------------

  /** Removes leading white space: what is removed is blank and what is kept is a suffix. */
  function TrimStart(s: string): (r: string)
    ensures |r| <= |s| && r == s[|s| - |r|..]
    ensures IsBlank(s[..|s| - |r|])
    ensures r != [] ==> !IsSpace(r[0])
  {
    if s != [] && IsSpace(s[0]) then
      var r := TrimStart(s[1..]);
      assert s[1..][|s| - 1 - |r|..] == s[|s| - |r|..];
      assert forall k :: 1 <= k < |s| - |r| ==> s[k] == s[1..][..|s| - 1 - |r|][k - 1];
      r
    else s
  }

  /** Removes trailing white space: what is removed is blank and what is kept is a prefix. */
  function TrimEnd(s: string): (r: string)
    ensures |r| <= |s| && r == s[..|r|]
    ensures IsBlank(s[|r|..])
    ensures r != [] ==> !IsSpace(r[|r| - 1])
  {
    if s != [] && IsSpace(s[|s| - 1]) then TrimEnd(s[..|s| - 1]) else s
  }

  /** `String.prototype.trim`. */
  function Trim(s: string): string {
    TrimEnd(TrimStart(s))
  }

  /** Where trim() cuts: the kept part is a slice whose surroundings are blank. */
  function TrimLo(s: string): (i: nat)
    ensures i <= |s|
  {
    |s| - |TrimStart(s)|
  }

  /** trim() keeps the slice `s[TrimLo(s)..TrimLo(s) + |Trim(s)|]`, drops only
      white space around it, and the result neither starts nor ends with white space. */
  lemma TrimSlice(s: string)
    ensures TrimLo(s) + |Trim(s)| <= |s|
    ensures Trim(s) == s[TrimLo(s)..TrimLo(s) + |Trim(s)|]
    ensures IsBlank(s[..TrimLo(s)]) && IsBlank(s[TrimLo(s) + |Trim(s)|..])
    ensures Trim(s) != [] ==> !IsSpace(Trim(s)[0]) && !IsSpace(Trim(s)[|Trim(s)| - 1])
  {
    TrimKeepsSlice(s);
    TrimDropsBlank(s);
    var t := TrimStart(s);
    if Trim(s) != [] {
      assert Trim(s)[0] == t[0];
    }
  }

  lemma TrimKeepsSlice(s: string)
    ensures TrimLo(s) + |Trim(s)| <= |s|
    ensures Trim(s) == s[TrimLo(s)..TrimLo(s) + |Trim(s)|]
  {
    var t := TrimStart(s);
    var r := TrimEnd(t);
    PrefixOfSuffix(s, |s| - |t|, |r|);
  }

  /** A prefix of a suffix is a slice. */
  lemma PrefixOfSuffix(s: string, i: nat, n: nat)
    requires i + n <= |s|
    ensures s[i..][..n] == s[i..i + n]
  {
  }

  lemma TrimDropsBlank(s: string)
    ensures TrimLo(s) + |Trim(s)| <= |s|
    ensures IsBlank(s[..TrimLo(s)]) && IsBlank(s[TrimLo(s) + |Trim(s)|..])
  {
    var t := TrimStart(s);
    var r := TrimEnd(t);
    assert s[|s| - |t| + |r|..] == t[|r|..];
  }

  /** trim() gives the empty string exactly on blank input. */
  lemma TrimEmptyIffBlank(s: string)
    ensures Trim(s) == [] <==> IsBlank(s)
  {
    TrimSlice(s);
    var i := TrimLo(s);
    if Trim(s) == [] {
      assert i == |s|;
      forall k | 0 <= k < |s| ensures IsSpace(s[k]) {
        assert s[k] == s[..i][k];
      }
    } else {
      assert s[i] == Trim(s)[0];
    }
  }

  /** A string that does not start or end with white space is its own trim. */
  lemma TrimOfTrimmed(s: string)
    requires s != [] ==> !IsSpace(s[0]) && !IsSpace(s[|s| - 1])
    ensures Trim(s) == s
  {
  }

  // ---------------------------------------------------------------------------
  // length and substring(0, n), counted in UTF-16 code units
  // ---------------------------------------------------------------------------

  /** The code units a character takes in UTF-16: two outside the Basic
      Multilingual Plane, one inside it. */
  function CharUnits(c: char): nat {
    if c as int >= 0x10000 then 2 else 1
  }

  /** `s.length` in JavaScript. */
  function Utf16Length(s: string): (n: nat)
    ensures |s| <= n <= 2 * |s|
  {
    if s == [] then 0 else CharUnits(s[0]) + Utf16Length(s[1..])
  }

  /** A text with no character outside the Basic Multilingual Plane. */
  predicate InBmp(s: string) {
    forall k :: 0 <= k < |s| ==> s[k] as int < 0x10000
  }

  /** The longest run of whole characters at the start of `s` that fits in
      `n` code units: `s.substring(0, n)`, except that a surrogate pair cut
      in half is left out whole. */
  function Utf16Prefix(s: string, n: nat): (p: string)
    ensures |p| <= |s| && p == s[..|p|]
    ensures Utf16Length(p) <= n
    ensures |p| < |s| ==> Utf16Length(p) + CharUnits(s[|p|]) > n
    ensures Utf16Length(s) <= n ==> p == s
  {
    if s == [] || CharUnits(s[0]) > n then []
    else
      var q := Utf16Prefix(s[1..], n - CharUnits(s[0]));
      assert ([s[0]] + q)[1..] == q;
      [s[0]] + q
  }

  /** Lengths add up over a concatenation. */
  lemma {:induction false} Utf16LengthAppend(a: string, b: string)
    ensures Utf16Length(a + b) == Utf16Length(a) + Utf16Length(b)
    decreases |a|
  {
    if a == [] {
      assert a + b == b;
    } else {
      assert (a + b)[0] == a[0] && (a + b)[1..] == a[1..] + b;
      Utf16LengthAppend(a[1..], b);
    }
  }

  /** Inside the Basic Multilingual Plane a code unit is a character: the
      length is the number of characters and the prefix is a plain slice. */
  lemma {:induction false} Utf16InBmp(s: string, n: nat)
    requires InBmp(s)
    ensures Utf16Length(s) == |s|
    ensures Utf16Prefix(s, n) == s[..if n < |s| then n else |s|]
    decreases |s|
  {
    if s != [] {
      assert InBmp(s[1..]);
      if n > 0 {
        Utf16InBmp(s[1..], n - 1);
        assert s[..if n < |s| then n else |s|] == [s[0]] + s[1..][..if n - 1 < |s| - 1 then n - 1 else |s| - 1];
      } else {
        Utf16InBmp(s[1..], 0);
      }
    }
  }

  // ---------------------------------------------------------------------------
  // toLowerCase()
  // ---------------------------------------------------------------------------

  function LowerChar(c: char): char {
    if 'A' <= c <= 'Z' then (c as int + 32) as char else c
  }

  /** `toLowerCase()` on the ASCII letters; every other character is kept. */
  function Lower(s: string): string {
    seq(|s|, k requires 0 <= k < |s| => LowerChar(s[k]))
  }

  // ---------------------------------------------------------------------------
  // indexOf / includes
  // ---------------------------------------------------------------------------

  /** `pat` occurs in `s` starting at index `i`. */
  predicate OccursAt(s: string, pat: string, i: int) {
    0 <= i && i + |pat| <= |s| && s[i..i + |pat|] == pat
  }

  /** `s.indexOf(pat, from)`: the first occurrence at or after `from`, or -1. */
  function IndexOfFrom(s: string, pat: string, from: nat): (r: int)
    decreases |s| - from
    ensures r == -1 || (from <= r && OccursAt(s, pat, r))
    ensures forall k :: from <= k && (r == -1 || k < r) ==> !OccursAt(s, pat, k)
  {
    if from + |pat| > |s| then -1
    else if s[from..from + |pat|] == pat then from
    else IndexOfFrom(s, pat, from + 1)
  }

  /** `s.indexOf(pat)`. */
  function IndexOf(s: string, pat: string): int {
    IndexOfFrom(s, pat, 0)
  }

  /** `s.includes(pat)`. */
  predicate Contains(s: string, pat: string) {
    IndexOf(s, pat) >= 0
  }

  /** includes() holds exactly when some occurrence exists. */
  lemma ContainsIff(s: string, pat: string)
    ensures Contains(s, pat) <==> exists i :: OccursAt(s, pat, i)
  {
  }

  /** Any occurrence shows includes(). */
  lemma OccurrenceContains(s: string, pat: string, i: int)
    requires OccursAt(s, pat, i)
    ensures Contains(s, pat)
  {
  }

  /** A pattern holding a character the text lacks does not occur in it. */
  lemma MissingCharNoOccurrence(s: string, pat: string, x: char)
    requires x in pat && x !in s
    ensures !Contains(s, pat)
  {
    ContainsIff(s, pat);
  }

  /** Neither part holds the pattern, and no occurrence can cross the seam:
      either the last character of `a` appears in the pattern only at its end,
      or the first character of `b` only at its start. */
  lemma ConcatNoOccurrence(a: string, b: string, pat: string)
    requires !Contains(a, pat) && !Contains(b, pat) && pat != []
    requires (a != [] && a[|a| - 1] !in pat[..|pat| - 1]) || (b != [] && b[0] !in pat[1..])
    ensures !Contains(a + b, pat)
  {
    ContainsIff(a, pat);
    ContainsIff(b, pat);
    forall i | 0 <= i ensures !OccursAt(a + b, pat, i) {
      if OccursAt(a + b, pat, i) {
        if i + |pat| <= |a| {
          assert (a + b)[i..i + |pat|] == a[i..i + |pat|];
          assert OccursAt(a, pat, i);
        } else if |a| <= i {
          assert (a + b)[i..i + |pat|] == b[i - |a|..i - |a| + |pat|];
          assert OccursAt(b, pat, i - |a|);
        } else {
          SeamCharacters(a, b, pat, i);
        }
      }
    }
    ContainsIff(a + b, pat);
  }

  /** An occurrence across the seam of `a + b` holds the last character of
      `a` and, right after it, the first character of `b`. */
  lemma SeamCharacters(a: string, b: string, pat: string, i: int)
    ensures OccursAt(a + b, pat, i) && i < |a| < i + |pat| ==>
      pat[..|pat| - 1][|a| - 1 - i] == a[|a| - 1] && pat[1..][|a| - 1 - i] == b[0]
  {
    if OccursAt(a + b, pat, i) && i < |a| < i + |pat| {
      assert pat[|a| - 1 - i] == (a + b)[i..i + |pat|][|a| - 1 - i];
      assert pat[|a| - i] == (a + b)[i..i + |pat|][|a| - i];
    }
  }

  /** Joining parts that lack the pattern, with a one-character separator the
      pattern does not hold, does not create it. */
  lemma {:induction false} JoinNoOccurrence(parts: seq<string>, sep: string, pat: string)
    requires |sep| == 1 && sep[0] !in pat && pat != []
    requires forall k :: 0 <= k < |parts| ==> !Contains(parts[k], pat)
    ensures !Contains(Join(parts, sep), pat)
    decreases |parts|
  {
    if |parts| == 0 {
      assert !OccursAt(Join(parts, sep), pat, 0);
      ContainsIff(Join(parts, sep), pat);
    } else if |parts| > 1 {
      var rest := Join(parts[1..], sep);
      JoinNoOccurrence(parts[1..], sep, pat);
      assert sep == [sep[0]];
      MissingCharNoOccurrence(sep, pat, pat[0]);
      ConcatNoOccurrence(sep, rest, pat);
      ConcatNoOccurrence(parts[0], sep + rest, pat);
      AppendAssoc(parts[0], sep, rest);
    }
  }

  /** indexOf returns the occurrence that has no occurrence before it. */
  lemma IndexOfFirst(s: string, pat: string, i: int)
    requires OccursAt(s, pat, i)
    requires forall k :: 0 <= k < i ==> !OccursAt(s, pat, k)
    ensures IndexOf(s, pat) == i
  {
  }

  /** A part of a string that contains `pat` makes the whole string contain it. */
  lemma ContainsInPart(a: string, b: string, c: string, pat: string)
    requires Contains(b, pat)
    ensures Contains(a + b + c, pat)
  {
    var i := IndexOf(b, pat);
    assert (a + b + c)[|a| + i..|a| + i + |pat|] == b[i..i + |pat|];
    OccurrenceContains(a + b + c, pat, |a| + i);
  }

  /** Containment is transitive. */
  lemma ContainsTrans(s: string, mid: string, pat: string)
    requires Contains(s, mid) && Contains(mid, pat)
    ensures Contains(s, pat)
  {
    var i := IndexOf(s, mid);
    var j := IndexOf(mid, pat);
    assert OccursAt(s, mid, i) && OccursAt(mid, pat, j);
    forall k | 0 <= k < |pat| ensures s[i + j + k] == pat[k] {
      assert s[i + j + k] == s[i..i + |mid|][j + k];
      assert mid[j + k] == mid[j..j + |pat|][k];
    }
    assert s[i + j..i + j + |pat|] == pat;
    OccurrenceContains(s, pat, i + j);
  }

  /** An occurrence in the second half of a concatenation is one in the whole. */
  lemma ContainsInSuffix(a: string, b: string, pat: string)
    requires Contains(b, pat)
    ensures Contains(a + b, pat)
  {
    var i := IndexOf(b, pat);
    assert (a + b)[|a| + i..|a| + i + |pat|] == b[i..i + |pat|];
    OccurrenceContains(a + b, pat, |a| + i);
  }

  /** An occurrence in the first half of a concatenation is one in the whole. */
  lemma ContainsInPrefix(a: string, b: string, pat: string)
    requires Contains(a, pat)
    ensures Contains(a + b, pat)
  {
    var i := IndexOf(a, pat);
    assert (a + b)[i..i + |pat|] == a[i..i + |pat|];
    OccurrenceContains(a + b, pat, i);
  }

  /** Every string contains itself. */
  lemma ContainsSelf(s: string)
    ensures Contains(s, s)
  {
    assert OccursAt(s, s, 0);
  }

  /** For a pattern that starts and ends with a non-space character, trimming
      the text neither adds nor removes an occurrence. */
  lemma ContainsTrim(s: string, pat: string)
    requires pat != [] && !IsSpace(pat[0]) && !IsSpace(pat[|pat| - 1])
    ensures Contains(Trim(s), pat) <==> Contains(s, pat)
  {
    TrimSlice(s);
    var lo, t := TrimLo(s), Trim(s);
    if Contains(t, pat) {
      ContainsFromSlice(s, lo, lo + |t|, pat);
    }
    if Contains(s, pat) {
      ContainsTrimBack(s, pat);
    }
  }

  /** Trimming cannot create an occurrence. */
  lemma TrimAddsNothing(s: string, pat: string)
    requires !Contains(s, pat)
    ensures !Contains(Trim(s), pat)
  {
    TrimKeepsSlice(s);
    AbsentFromSlice(s, TrimLo(s), TrimLo(s) + |Trim(s)|, pat);
  }

  /** An occurrence of a pattern with non-space ends lies inside the trimmed slice. */
  lemma ContainsTrimBack(s: string, pat: string)
    requires pat != [] && !IsSpace(pat[0]) && !IsSpace(pat[|pat| - 1])
    requires Contains(s, pat)
    ensures Contains(Trim(s), pat)
  {
    TrimSlice(s);
    ContainsInFrame(s, TrimLo(s), TrimLo(s) + |Trim(s)|, pat);
  }

  /** A pattern with non-space ends found in `s` is found in any slice of `s`
      whose margins are blank. */
  lemma ContainsInFrame(s: string, lo: nat, hi: nat, pat: string)
    requires lo <= hi <= |s| && IsBlank(s[..lo]) && IsBlank(s[hi..])
    requires pat != [] && !IsSpace(pat[0]) && !IsSpace(pat[|pat| - 1])
    requires Contains(s, pat)
    ensures Contains(s[lo..hi], pat)
  {
    var i := IndexOf(s, pat);
    assert OccursAt(s, pat, i);
    OccurrenceWithinFrame(s, lo, hi, pat, i);
    SliceOfSlice(s, lo, hi, i - lo, i - lo + |pat|);
    OccurrenceContains(s[lo..hi], pat, i - lo);
  }

  /** A slice of a slice is a slice of the original. */
  lemma SliceOfSlice(s: string, lo: nat, hi: nat, a: nat, b: nat)
    requires lo <= hi <= |s| && a <= b <= hi - lo
    ensures s[lo..hi][a..b] == s[lo + a..lo + b]
  {
    assert forall k :: 0 <= k < b - a ==> s[lo..hi][a..b][k] == s[lo + a + k];
  }

  /** An occurrence of a pattern with non-space ends cannot reach into blank
      margins `s[..lo]` and `s[hi..]`. */
  lemma OccurrenceWithinFrame(s: string, lo: nat, hi: nat, pat: string, i: int)
    requires lo <= hi <= |s| && IsBlank(s[..lo]) && IsBlank(s[hi..])
    requires pat != [] && !IsSpace(pat[0]) && !IsSpace(pat[|pat| - 1])
    requires OccursAt(s, pat, i)
    ensures lo <= i && i + |pat| <= hi
  {
    assert s[i] == pat[0] && s[i + |pat| - 1] == pat[|pat| - 1];
  }

  /** `keywords.some(kw => s.includes(kw))`. */
  predicate ContainsAny(s: string, keywords: seq<string>) {
    exists k :: 0 <= k < |keywords| && Contains(s, keywords[k])
  }

  // ---------------------------------------------------------------------------
  // split / join
  // ---------------------------------------------------------------------------

  /** `s.split(sep)` for a one-character separator: always at least one piece. */
  function Split(s: string, sep: char): (r: seq<string>)
    ensures |r| >= 1
  {
    if s == [] then [[]]
    else
      var rest := Split(s[1..], sep);
      if s[0] == sep then [[]] + rest
      else [[s[0]] + rest[0]] + rest[1..]
  }

  /** `parts.join(sep)`. */
  function Join(parts: seq<string>, sep: string): string {
    if |parts| == 0 then []
    else if |parts| == 1 then parts[0]
    else parts[0] + sep + Join(parts[1..], sep)
  }

  /** Every part of a join occurs in the joined string. */
  lemma {:induction false} JoinContainsPart(parts: seq<string>, sep: string, k: nat)
    requires k < |parts|
    ensures Contains(Join(parts, sep), parts[k])
    decreases |parts|
  {
    if |parts| == 1 {
      ContainsSelf(parts[0]);
    } else if k == 0 {
      ContainsSelf(parts[0]);
      ContainsInPart([], parts[0], sep + Join(parts[1..], sep), parts[0]);
      assert [] + parts[0] + (sep + Join(parts[1..], sep)) == Join(parts, sep);
    } else {
      JoinContainsPart(parts[1..], sep, k - 1);
      ContainsInPart(parts[0] + sep, Join(parts[1..], sep), [], parts[k]);
      assert parts[0] + sep + Join(parts[1..], sep) + [] == Join(parts, sep);
    }
  }

  /** Splitting and joining again with the same separator gives back the
      input, and no piece contains the separator. */
  lemma {:induction false} SplitJoin(s: string, sep: char)
    ensures Join(Split(s, sep), [sep]) == s
    ensures forall k :: 0 <= k < |Split(s, sep)| ==> sep !in Split(s, sep)[k]
  {
    if s != [] {
      var rest := Split(s[1..], sep);
      SplitJoin(s[1..], sep);
      if s[0] == sep {
        assert Split(s, sep) == [[]] + rest;
        assert s == [sep] + s[1..];
      } else {
        var r := Split(s, sep);
        assert r == [[s[0]] + rest[0]] + rest[1..];
        if |rest| == 1 {
          assert s == [s[0]] + rest[0];
        } else {
          assert Join(rest, [sep]) == rest[0] + [sep] + Join(rest[1..], [sep]);
          assert r[1..] == rest[1..];
          assert s == [s[0]] + s[1..];
        }
        forall k | 0 <= k < |r| ensures sep !in r[k] {
          if k > 0 { assert r[k] == rest[k]; }
        }
      }
    }
  }

  /** A string without the separator splits into itself alone. */
  lemma SplitWithoutSeparator(s: string, sep: char)
    requires sep !in s
    ensures Split(s, sep) == [s]
  {
    if s != [] {
      SplitWithoutSeparator(s[1..], sep);
      assert [s[0]] + s[1..] == s;
    }
  }

  // ---------------------------------------------------------------------------
  // replace
  // ---------------------------------------------------------------------------

  /** `s.replace(/a/g, b)` for single characters `a` and `b`. */
  function ReplaceChar(s: string, a: char, b: char): string {
    seq(|s|, k requires 0 <= k < |s| => if s[k] == a then b else s[k])
  }

  /** Drops the white-space run at the front of `s`. */
  function DropSpaces(s: string): (r: string)
    ensures |r| <= |s| && (r != [] ==> !IsSpace(r[0]))
  {
    if s != [] && IsSpace(s[0]) then DropSpaces(s[1..]) else s
  }

  /** `s.replace(/\s+/g, ' ')`: every maximal white-space run becomes one blank. */
  function CollapseSpaces(s: string): string
    decreases |s|
  {
    if s == [] then []
    else if IsSpace(s[0]) then [' '] + CollapseSpaces(DropSpaces(s[1..]))
    else [s[0]] + CollapseSpaces(s[1..])
  }

  /** Every white-space character is a plain blank and no two are adjacent. */
  predicate Collapsed(s: string) {
    && (forall k :: 0 <= k < |s| && IsSpace(s[k]) ==> s[k] == ' ')
    && (forall k :: 0 <= k < |s| - 1 ==> !(IsSpace(s[k]) && IsSpace(s[k + 1])))
  }

  /** After the replacement no white-space run of length two or more is left,
      only blanks remain as white space, and a string that does not start with
      white space still does not. No character other than white space is
      introduced or removed. */
  lemma {:induction false} CollapseSpacesCollapsed(s: string)
    ensures Collapsed(CollapseSpaces(s))
    ensures s != [] && !IsSpace(s[0]) ==> CollapseSpaces(s) != [] && CollapseSpaces(s)[0] == s[0]
    ensures s != [] && IsSpace(s[0]) ==> CollapseSpaces(s) != [] && CollapseSpaces(s)[0] == ' '
    ensures forall c :: !IsSpace(c) ==> (c in CollapseSpaces(s) <==> c in s)
    decreases |s|
  {
    if s != [] {
      if IsSpace(s[0]) {
        var d := DropSpaces(s[1..]);
        DropSpacesSuffix(s[1..]);
        CollapseSpacesCollapsed(d);
        var r := CollapseSpaces(d);
        assert CollapseSpaces(s) == [' '] + r;
        forall c | !IsSpace(c) ensures c in CollapseSpaces(s) <==> c in s {
          calc {
            c in CollapseSpaces(s);
            c in r;
            c in d;
            { assert s == [s[0]] + s[1..]; }
            c in s;
          }
        }
      } else {
        CollapseSpacesCollapsed(s[1..]);
        assert CollapseSpaces(s) == [s[0]] + CollapseSpaces(s[1..]);
        assert s == [s[0]] + s[1..];
      }
    }
  }

  /** DropSpaces removes blank characters only. */
  lemma DropSpacesSuffix(s: string)
    ensures forall c :: !IsSpace(c) ==> (c in DropSpaces(s) <==> c in s)
  {
    if s != [] && IsSpace(s[0]) {
      DropSpacesSuffix(s[1..]);
      assert s == [s[0]] + s[1..];
    }
  }

  /** Text that is already collapsed is left unchanged. */
  lemma {:induction false} CollapseSpacesIdentity(s: string)
    requires Collapsed(s)
    ensures CollapseSpaces(s) == s
    decreases |s|
  {
    if s != [] {
      assert Collapsed(s[1..]);
      if IsSpace(s[0]) {
        assert s[0] == ' ';
        assert s[1..] == [] || !IsSpace(s[1]);
        assert DropSpaces(s[1..]) == s[1..];
      }
      CollapseSpacesIdentity(s[1..]);
      assert s == [s[0]] + s[1..];
    }
  }

  /** Two strings with the same visible (non-white-space) characters. */
  predicate SameVisible(a: string, b: string) {
    forall c :: !IsSpace(c) ==> (c in a <==> c in b)
  }

  /** Strings with the same visible characters are blank together. */
  lemma SameVisibleBlank(a: string, b: string)
    requires SameVisible(a, b)
    ensures IsBlank(a) <==> IsBlank(b)
  {
    if !IsBlank(a) {
      var k :| 0 <= k < |a| && !IsSpace(a[k]);
      assert a[k] in b;
    }
    if !IsBlank(b) {
      var k :| 0 <= k < |b| && !IsSpace(b[k]);
      assert b[k] in a;
    }
  }

  /** A visible character missing from one of two such strings is missing
      from the other. */
  lemma VisibleAbsent(a: string, b: string, c: char)
    requires SameVisible(a, b) && !IsSpace(c) && c !in b
    ensures c !in a
  {
  }

  /** Collapsed text has no line break. */
  lemma CollapsedOneLine(s: string)
    requires Collapsed(s)
    ensures '\n' !in s
  {
    assert forall i :: 0 <= i < |s| ==> s[i] != '\n';
  }

  /** Turning newlines into blanks changes white space only. */
  lemma ReplaceNewlineVisible(s: string)
    ensures SameVisible(ReplaceChar(s, '\n', ' '), s)
  {
    var r := ReplaceChar(s, '\n', ' ');
    forall c | !IsSpace(c) ensures c in r <==> c in s {
      if c in r {
        var k :| 0 <= k < |r| && r[k] == c;
        assert s[k] == c;
      }
      if c in s {
        var k :| 0 <= k < |s| && s[k] == c;
        assert r[k] == c;
      }
    }
  }

  /** trim() removes white space only. */
  lemma TrimVisible(s: string)
    ensures SameVisible(Trim(s), s)
  {
    TrimKeepsSlice(s);
    var lo := TrimLo(s);
    var t := Trim(s);
    forall c | !IsSpace(c) ensures c in t <==> c in s {
      if c in t {
        var k :| 0 <= k < |t| && t[k] == c;
        assert s[lo + k] == c;
      }
      if c in s {
        var k :| 0 <= k < |s| && s[k] == c;
        VisibleInsideTrim(s, k);
        assert t[k - lo] == c;
      }
    }
  }

  /** A visible character lies inside the part trim() keeps. */
  lemma VisibleInsideTrim(s: string, k: nat)
    requires k < |s| && !IsSpace(s[k])
    ensures TrimLo(s) <= k < TrimLo(s) + |Trim(s)| <= |s|
  {
    TrimDropsBlank(s);
    var lo := TrimLo(s);
    var hi := lo + |Trim(s)|;
    assert forall j :: 0 <= j < lo ==> s[j] == s[..lo][j];
    assert forall j :: hi <= j < |s| ==> s[j] == s[hi..][j - hi];
  }

  /** Trimming keeps text collapsed. */
  lemma TrimCollapsed(s: string)
    requires Collapsed(s)
    ensures Collapsed(Trim(s))
  {
    TrimSlice(s);
    var lo := TrimLo(s);
    var t := Trim(s);
    forall k | 0 <= k < |t| ensures t[k] == s[lo + k] { }
  }

  /** Whether `pat` starts `s`, optionally comparing the lower-cased text
      (the regex flag `i` with an all-lower-case pattern). */
  predicate StartsWithPat(s: string, pat: string, foldCase: bool) {
    |pat| <= |s| && (if foldCase then Lower(s[..|pat|]) == pat else s[..|pat|] == pat)
  }

  /** `s.replace(/pat/g, '')` (with flag `i` when `foldCase`): scans left to
      right and deletes each non-overlapping match. */
  function RemoveAll(s: string, pat: string, foldCase: bool): string
    requires pat != []
    decreases |s|
  {
    if |s| < |pat| then s
    else if StartsWithPat(s, pat, foldCase) then RemoveAll(s[|pat|..], pat, foldCase)
    else [s[0]] + RemoveAll(s[1..], pat, foldCase)
  }

  /** A string in which the pattern never occurs is left as it is. */
  lemma {:induction false} RemoveAllAbsent(s: string, pat: string)
    requires pat != [] && !Contains(s, pat)
    ensures RemoveAll(s, pat, false) == s
    decreases |s|
  {
    if |s| >= |pat| {
      assert !OccursAt(s, pat, 0);
      if !Contains(s[1..], pat) {
        RemoveAllAbsent(s[1..], pat);
        assert s == [s[0]] + s[1..];
      } else {
        assert s[1..|s|] == s[1..];
        ContainsFromSlice(s, 1, |s|, pat);
        assert false;
      }
    }
  }

  /** A string none of whose characters (nor their lower-case forms) is the
      first character of the pattern is left as it is. */
  lemma {:induction false} RemoveAllUntouched(s: string, pat: string, foldCase: bool)
    requires pat != []
    requires forall k :: 0 <= k < |s| ==> s[k] != pat[0] && LowerChar(s[k]) != pat[0]
    ensures RemoveAll(s, pat, foldCase) == s
    decreases |s|
  {
    if |s| >= |pat| {
      assert !StartsWithPat(s, pat, foldCase) by {
        if foldCase {
          assert Lower(s[..|pat|])[0] == LowerChar(s[0]);
        } else {
          assert s[..|pat|][0] == s[0];
        }
      }
      RemoveAllUntouched(s[1..], pat, foldCase);
      assert s == [s[0]] + s[1..];
    }
  }

  /** Deleting "```" keeps the first character unless that character starts a
      deleted run: whatever the result starts with, the input starts with too,
      for the first two characters. */
  lemma {:induction false} RemoveFenceHead(s: string)
    ensures |RemoveAll(s, "```", false)| >= 1 && RemoveAll(s, "```", false)[0] == '`'
      ==> |s| >= 1 && s[0] == '`'
    ensures |RemoveAll(s, "```", false)| >= 2 && RemoveAll(s, "```", false)[..2] == "``"
      ==> |s| >= 2 && s[..2] == "``"
    decreases |s|
  {
    var r := RemoveAll(s, "```", false);
    if |s| >= 3 && !StartsWithPat(s, "```", false) {
      RemoveFenceHead(s[1..]);
      assert r == [s[0]] + RemoveAll(s[1..], "```", false);
      if |r| >= 2 && r[..2] == "``" {
        assert RemoveAll(s[1..], "```", false)[0] == r[1];
      }
    } else if |s| >= 3 {
      assert s[..3] == "```";
      assert s[0] == s[..3][0] && s[1] == s[..3][1];
    }
  }

  /** After deleting every "```" no "```" is left: a deletion never joins
      the characters around it into a new fence. */
  lemma {:induction false} RemoveFenceComplete(s: string)
    ensures !Contains(RemoveAll(s, "```", false), "```")
    decreases |s|
  {
    var r := RemoveAll(s, "```", false);
    if |s| < 3 {
    } else if StartsWithPat(s, "```", false) {
      RemoveFenceComplete(s[3..]);
    } else {
      var tail := RemoveAll(s[1..], "```", false);
      RemoveFenceComplete(s[1..]);
      RemoveFenceHead(s[1..]);
      assert r == [s[0]] + tail;
      if Contains(r, "```") {
        var i := IndexOf(r, "```");
        assert r[i..i + 3] == "```";
        if i == 0 {
          assert false;
        } else {
          SliceOfSlice(r, 1, |r|, i - 1, i - 1 + 3);
          assert r[1..|r|] == tail;
          OccurrenceContains(tail, "```", i - 1);
          assert false;
        }
      }
    }
  }

  /** A slice of a string without an occurrence of `pat` has none either. */
  lemma AbsentFromSlice(s: string, lo: nat, hi: nat, pat: string)
    requires lo <= hi <= |s| && !Contains(s, pat)
    ensures !Contains(s[lo..hi], pat)
  {
    if Contains(s[lo..hi], pat) {
      ContainsFromSlice(s, lo, hi, pat);
    }
  }

  /** An occurrence in a slice is an occurrence in the whole string. */
  lemma ContainsFromSlice(s: string, lo: nat, hi: nat, pat: string)
    requires lo <= hi <= |s| && Contains(s[lo..hi], pat)
    ensures Contains(s, pat)
  {
    {
      var i := IndexOf(s[lo..hi], pat);
      assert OccursAt(s[lo..hi], pat, i);
      SliceOfSlice(s, lo, hi, i, i + |pat|);
      OccurrenceContains(s, pat, lo + i);
    }
  }
}
