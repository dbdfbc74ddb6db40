/**
 The handful of Python string operations the modelled code relies on:
 `str.lower`, `str.strip`, `in` (substring test), `str.split(sep)`,
 `str.split()` / `re.split(r"\s+")` and `sep.join(parts)`.
 */
module Text {
  import opened Results

  /** The characters for which Python's `str.isspace()` holds (and which `\s` matches) */
  predicate IsSpace(c: char) {
    || c == ' '
    || '\t' <= c <= '\r'
    || '\U{1c}' <= c <= '\U{1f}'
    || c == '\U{85}'
    || c == '\U{a0}'
    || c == '\U{1680}'
    || '\U{2000}' <= c <= '\U{200a}'
    || c == '\U{2028}'
    || c == '\U{2029}'
    || c == '\U{202f}'
    || c == '\U{205f}'
    || c == '\U{3000}'
  }

  /** ASCII lower-casing of one character */
  function LowerChar(c: char): char {
    if 'A' <= c <= 'Z' then (c as int + 32) as char else c
  }

  /** `s.lower()`, restricted to the ASCII letters */
  function Lower(s: string): (r: string)
    ensures |r| == |s|
    ensures forall i :: 0 <= i < |s| ==> r[i] == LowerChar(s[i])
  {
    if s == [] then [] else [LowerChar(s[0])] + Lower(s[1..])
  }

  lemma LowerIdempotent(s: string)
    ensures Lower(Lower(s)) == Lower(s)
  {
  }

  /** Lower-casing works character by character, so it distributes over concatenation */
  lemma LowerAppend(a: string, b: string)
    ensures Lower(a + b) == Lower(a) + Lower(b)
  {
    assert forall i :: 0 <= i < |a + b| ==> Lower(a + b)[i] == (Lower(a) + Lower(b))[i];
  }

  /** A lower-case string found in `s` is found at the same place in its lower-case form */
  lemma LowerKeepsLowercaseOccurrence(s: string, t: string)
    requires Lower(t) == t && Contains(s, t)
    ensures Contains(Lower(s), t)
  {
    var k :| OccursAt(s, t, k);
    forall j | 0 <= j < |t| ensures Lower(s)[k..k + |t|][j] == t[j] {
      assert s[k + j] == t[j];
      assert Lower(t)[j] == LowerChar(t[j]);
    }
    assert Lower(s)[k..k + |t|] == t;
    assert OccursAt(Lower(s), t, k);
  }

  /** A lower-case letter that occurs in `s` in neither case does not occur in its
      lower-case form */
  lemma LowerLacksLetter(s: string, c: char)
    requires 'a' <= c <= 'z'
    requires c !in s && (c as int - 32) as char !in s
    ensures c !in Lower(s)
  {
    forall i | 0 <= i < |s| ensures Lower(s)[i] != c {
      assert s[i] in s;
    }
  }

  /** A string without upper-case ASCII letters is its own lower-case form */
  lemma LowerOfLowercase(s: string)
    requires forall c :: c in s ==> !('A' <= c <= 'Z')
    ensures Lower(s) == s
  {
    assert forall i :: 0 <= i < |s| ==> s[i] in s;
  }

  predicate IsPrefix(p: string, s: string) {
    |p| <= |s| && s[..|p|] == p
  }

  predicate IsSuffix(p: string, s: string) {
    |p| <= |s| && s[|s| - |p|..] == p
  }

  /** `t` occurs in `s` starting at index `i` */
  predicate OccursAt(s: string, t: string, i: int) {
    0 <= i && i + |t| <= |s| && s[i..i + |t|] == t
  }

  /** The meaning of Python's `t in s` */
  ghost predicate Contains(s: string, t: string) {
    exists i :: OccursAt(s, t, i)
  }

  /** The leftmost occurrence of `t` in `s` at or after `from` (what `str.find` scans for) */
  function Find(s: string, t: string, from: nat): (r: Option<nat>)
    ensures r.Some? ==> from <= r.value && OccursAt(s, t, r.value)
    ensures r.Some? ==> forall j :: from <= j < r.value ==> !OccursAt(s, t, j)
    ensures r.None? ==> forall j :: from <= j ==> !OccursAt(s, t, j)
    decreases |s| - from
  {
    if from + |t| > |s| then None
    else if s[from..from + |t|] == t then Some(from)
    else Find(s, t, from + 1)
  }

  /** Python's `t in s` */
  function In(t: string, s: string): (r: bool)
    ensures r <==> Contains(s, t)
  {
    Find(s, t, 0).Some?
  }

  /** A string holding a character that `s` lacks does not occur in `s` */
  lemma CharAbsent(s: string, t: string, j: int)
    requires 0 <= j < |t| && t[j] !in s
    ensures !Contains(s, t)
  {
    forall i ensures !OccursAt(s, t, i) {
      if 0 <= i && i + |t| <= |s| {
        assert s[i..i + |t|][j] == s[i + j];
        assert s[i + j] in s;
      }
    }
  }


  /** An occurrence that starts early enough puts each of its characters in the prefix */
  lemma CharOfOccurrence(s: string, t: string, j: int, k: int, n: int)
    ensures OccursAt(s, t, j) && 0 <= k < |t| && j + k < n <= |s| ==> t[k] in s[..n]
  {
    if OccursAt(s, t, j) && 0 <= k < |t| && j + k < n <= |s| {
      assert s[j..j + |t|][k] == s[..n][j + k];
    }
  }

  /** What `s` does not hold, no part of `s` holds */
  lemma NotContainsInPart(s: string, r: string, t: string)
    requires Contains(s, r) && !Contains(s, t)
    ensures !Contains(r, t)
  {
    var j :| OccursAt(s, r, j);
    forall i ensures !OccursAt(r, t, i) {
      if 0 <= i && i + |t| <= |r| {
        assert r == s[j..j + |r|];
        var u, v := r[i..i + |t|], s[j + i..j + i + |t|];
        forall m | 0 <= m < |t| ensures u[m] == v[m] {
          assert r[i + m] == s[j + i + m];
        }
        assert u == v;
        assert !OccursAt(s, t, j + i);
      }
    }
  }

  /** A string occurs in any string built around it */
  lemma ContainsInfix(a: string, t: string, b: string)
    ensures Contains(a + t + b, t)
  {
    assert (a + t + b)[|a|..|a| + |t|] == t;
    assert OccursAt(a + t + b, t, |a|);
  }

  /** A string occurs at the end of anything it is appended to */
  lemma ContainsAtEnd(a: string, t: string)
    ensures Contains(a + t, t)
  {
    assert (a + t)[|a|..|a| + |t|] == t;
    assert OccursAt(a + t, t, |a|);
  }

  /** Consecutive pieces of a concatenation occur in it together */
  lemma ContainsSpan(x: string, a: string, k: string, b: string, c: string)
    ensures Contains(x + a + k + b + c, a + k + b)
  {
    assert x + a + k + b + c == x + (a + k + b) + c;
    ContainsInfix(x, a + k + b, c);
  }

  /** Appending text keeps every occurrence */
  lemma ContainsExtended(s: string, t: string, y: string)
    requires Contains(s, t)
    ensures Contains(s + y, t)
  {
    var i :| OccursAt(s, t, i);
    assert (s + y)[i..i + |t|] == s[i..i + |t|];
    assert OccursAt(s + y, t, i);
  }

  /** An occurrence of an occurrence is an occurrence */
  lemma ContainsWithin(s: string, t: string, x: string)
    requires Contains(s, t) && Contains(t, x)
    ensures Contains(s, x)
  {
    var i :| OccursAt(s, t, i);
    var j :| OccursAt(t, x, j);
    assert s[i..i + |t|] == t;
    SliceOccurrence(s, x, i, i + |t|, j);
  }

  /** An occurrence inside a slice is an occurrence in the whole string */
  lemma SliceOccurrence(s: string, t: string, a: nat, b: nat, i: int)
    requires a <= b <= |s|
    ensures OccursAt(s[a..b], t, i) ==> OccursAt(s, t, a + i)
  {
    if OccursAt(s[a..b], t, i) {
      var u := s[a..b][i..i + |t|];
      assert forall k :: 0 <= k < |t| ==> u[k] == s[a + i + k];
      assert u == s[a + i..a + i + |t|];
    }
  }

  /** A string that `t` does not occur in keeps `t` out of each of its slices */
  lemma NotContainsSlice(s: string, t: string, a: nat, b: nat)
    requires a <= b <= |s|
    requires !Contains(s, t)
    ensures !Contains(s[a..b], t)
  {
    forall i ensures !OccursAt(s[a..b], t, i) {
      SliceOccurrence(s, t, a, b, i);
    }
  }

  /** A prefix of a prefix is a prefix */
  lemma PrefixTransitive(a: string, b: string, c: string)
    requires IsPrefix(a, b) && IsPrefix(b, c)
    ensures IsPrefix(a, c)
  {
    assert c[..|a|] == c[..|b|][..|a|];
  }

  /** A string is a prefix of anything appended to it */
  lemma PrefixOfAppend(a: string, b: string)
    ensures IsPrefix(a, a + b)
  {
    assert (a + b)[..|a|] == a;
  }

  /** A suffix of a suffix is a suffix */
  lemma SuffixTransitive(a: string, b: string, c: string)
    requires IsSuffix(a, b) && IsSuffix(b, c)
    ensures IsSuffix(a, c)
  {
    assert c[|c| - |a|..] == c[|c| - |b|..][|b| - |a|..];
  }

  /** One step of `SplitLast`: what holds of the text after the first separator carries over */
  lemma SplitLastStep(s: string, sep: string, i: nat, r: string)
    requires OccursAt(s, sep, i)
    requires IsSuffix(r, s[i + |sep|..])
    requires !Contains(s[i + |sep|..], sep) ==> r == s[i + |sep|..]
    requires Contains(s[i + |sep|..], sep) ==> IsSuffix(sep + r, s[i + |sep|..])
    ensures IsSuffix(r, s) && IsSuffix(sep + r, s)
  {
    var rest := s[i + |sep|..];
    assert IsSuffix(rest, s);
    SuffixTransitive(r, rest, s);
    if Contains(rest, sep) {
      SuffixTransitive(sep + r, rest, s);
    } else {
      assert s[i..] == sep + rest;
    }
  }

  /** Python's `s.split(sep)[-1]`: the text after the last separator found by the
      left-to-right, non-overlapping scan that `str.split` performs */
  function SplitLast(s: string, sep: string): (r: string)
    requires |sep| > 0
    ensures IsSuffix(r, s)
    ensures !Contains(r, sep)
    ensures !Contains(s, sep) ==> r == s
    ensures Contains(s, sep) ==> IsSuffix(sep + r, s)
    decreases |s|
  {
    match Find(s, sep, 0)
    case None => s
    case Some(i) =>
      var r := SplitLast(s[i + |sep|..], sep);
      SplitLastStep(s, sep, i, r);
      r
  }

  /** When some character of `sep` cannot be matched before the occurrence of `sep` that
      follows `a`, and `b` holds no `sep`, the last piece of `a + sep + b` is `b` */
  lemma SplitLastAt(a: string, sep: string, b: string, k: nat)
    requires k < |sep|
    requires sep[k] !in a + sep[..k]
    requires !Contains(b, sep)
    ensures SplitLast(a + sep + b, sep) == b
  {
    var s := a + sep + b;
    assert s[|a|..|a| + |sep|] == sep;
    assert OccursAt(s, sep, |a|);
    var x := Find(s, sep, 0).value;
    assert s[..|a| + k] == a + sep[..k];
    CharOfOccurrence(s, sep, x, k, |a| + k);
    assert x == |a|;
    assert s[|a| + |sep|..] == b;
  }

  /** Concatenation regroups freely */
  lemma AppendAssociative<T>(x: seq<T>, y: seq<T>, z: seq<T>)
    ensures x + (y + z) == (x + y) + z
  {
  }

  /** `s` with the leading characters satisfying `drop` removed */
  function TrimStart(s: string, drop: char -> bool): (r: string)
    ensures IsSuffix(r, s)
    ensures r == [] || !drop(r[0])
    ensures forall i :: 0 <= i < |s| - |r| ==> drop(s[i])
  {
    if s != [] && drop(s[0]) then TrimStart(s[1..], drop) else s
  }

  /** `s` with the trailing characters satisfying `drop` removed */
  function TrimEnd(s: string, drop: char -> bool): (r: string)
    ensures IsPrefix(r, s)
    ensures r == [] || !drop(r[|r| - 1])
    ensures forall i :: |r| <= i < |s| ==> drop(s[i])
  {
    if s != [] && drop(s[|s| - 1]) then TrimEnd(s[..|s| - 1], drop) else s
  }

  /** Python's `s.strip(chars)` with `drop` the membership test for `chars` */
  function Trim(s: string, drop: char -> bool): (r: string)
    ensures r == [] || (!drop(r[0]) && !drop(r[|r| - 1]))
    ensures Contains(s, r)
    ensures r == TrimEnd(TrimStart(s, drop), drop)
  {
    var t := TrimStart(s, drop);
    var r := TrimEnd(t, drop);
    assert s[|s| - |t|..|s| - |t| + |r|] == r;
    assert OccursAt(s, r, |s| - |t|);
    r
  }

  /** Python's `s.strip()` */
  function Strip(s: string): string {
    Trim(s, IsSpace)
  }

  /** A token of `str.split()`: non-empty and free of whitespace */
  predicate IsWord(w: string) {
    |w| > 0 && forall i :: 0 <= i < |w| ==> !IsSpace(w[i])
  }

  /** The length of the leading whitespace-free run of `s` */
  function NonSpaceRun(s: string): (n: nat)
    ensures n <= |s|
    ensures forall i :: 0 <= i < n ==> !IsSpace(s[i])
    ensures n < |s| ==> IsSpace(s[n])
  {
    if s == [] || IsSpace(s[0]) then 0 else 1 + NonSpaceRun(s[1..])
  }

  /** Python's `s.split()`, equivalently `[t for t in re.split(r"\s+", s) if t]`:
      the maximal whitespace-free runs of `s`, in order */
  function Words(s: string): (ws: seq<string>)
    ensures forall k :: 0 <= k < |ws| ==> IsWord(ws[k])
    decreases |s|
  {
    if s == [] then []
    else if IsSpace(s[0]) then Words(s[1..])
    else
      var n := NonSpaceRun(s);
      [s[..n]] + Words(s[n..])
  }

  /** Python's `sep.join(parts)` */
  function Join(sep: string, parts: seq<string>): string {
    if |parts| == 0 then ""
    else if |parts| == 1 then parts[0]
    else parts[0] + sep + Join(sep, parts[1..])
  }

  /** Appending one part extends the joined text by the separator and that part */
  lemma {:induction false} JoinSnoc(sep: string, parts: seq<string>, p: string)
    requires |parts| > 0
    ensures Join(sep, parts + [p]) == Join(sep, parts) + sep + p
    decreases |parts|
  {
    if |parts| == 1 {
      assert parts + [p] == [parts[0], p];
      assert (parts + [p])[1..] == [p];
    } else {
      assert (parts + [p])[1..] == parts[1..] + [p];
      JoinSnoc(sep, parts[1..], p);
    }
  }

  /** A word followed by whitespace (or nothing) is read back as one run */
  lemma {:induction false} NonSpaceRunOfWord(w: string, rest: string)
    requires forall i :: 0 <= i < |w| ==> !IsSpace(w[i])
    requires rest == [] || IsSpace(rest[0])
    ensures NonSpaceRun(w + rest) == |w|
    decreases |w|
  {
    if w != [] {
      assert (w + rest)[1..] == w[1..] + rest;
      NonSpaceRunOfWord(w[1..], rest);
    } else {
      assert w + rest == rest;
    }
  }

  /** A word followed by whitespace (or nothing) is the first token */
  lemma WordsOfWordThen(w: string, rest: string)
    requires IsWord(w)
    requires rest == [] || IsSpace(rest[0])
    ensures Words(w + rest) == [w] + Words(rest)
  {
    NonSpaceRunOfWord(w, rest);
    assert (w + rest)[..|w|] == w;
    assert (w + rest)[|w|..] == rest;
  }

  /** Leading whitespace produces no token */
  lemma WordsAfterSpace(c: char, rest: string)
    requires IsSpace(c)
    ensures Words([c] + rest) == Words(rest)
  {
    assert ([c] + rest)[1..] == rest;
  }

  /** A lone word is its own single token */
  lemma WordsOfWord(w: string)
    requires IsWord(w)
    ensures Words(w) == [w]
  {
    WordsOfWordThen(w, "");
    assert w + "" == w;
  }

  /** Two words separated by one space split into those two words */
  lemma WordsOfTwo(a: string, b: string)
    requires IsWord(a) && IsWord(b)
    ensures Words(a + " " + b) == [a, b]
  {
    WordsOfWord(b);
    WordsAfterSpace(' ', b);
    WordsOfWordThen(a, " " + b);
    assert a + " " + b == a + (" " + b);
  }

  /** Three words separated by single spaces split into those three words */
  lemma WordsOfThree(a: string, b: string, c: string)
    requires IsWord(a) && IsWord(b) && IsWord(c)
    ensures Words(a + " " + b + " " + c) == [a, b, c]
  {
    var tail := " " + (b + " " + c);
    WordsOfTwo(b, c);
    WordsAfterSpace(' ', b + " " + c);
    WordsOfWordThen(a, tail);
    AppendAssociative(a + " " + b, " ", c);
    AppendAssociative(a + " ", b, " " + c);
    AppendAssociative(a, " ", b + " " + c);
    AppendAssociative(b, " ", c);
  }

  /** Stripping text that neither starts nor ends with a dropped character changes nothing */
  lemma TrimUnchanged(s: string, drop: char -> bool)
    requires s == [] || (!drop(s[0]) && !drop(s[|s| - 1]))
    ensures Trim(s, drop) == s
  {
  }

  /** Splitting the single-space join of words gives the words back */
  lemma {:induction false} WordsOfJoin(ws: seq<string>)
    requires forall k :: 0 <= k < |ws| ==> IsWord(ws[k])
    ensures Words(Join(" ", ws)) == ws
    decreases |ws|
  {
    if |ws| == 1 {
      WordsOfWordThen(ws[0], "");
      assert ws[0] + "" == ws[0];
    } else if |ws| > 1 {
      var rest := Join(" ", ws[1..]);
      assert Join(" ", ws) == ws[0] + ([' '] + rest);
      WordsOfWordThen(ws[0], [' '] + rest);
      WordsAfterSpace(' ', rest);
      WordsOfJoin(ws[1..]);
      assert ws == [ws[0]] + ws[1..];
    }
  }

  /** The single-space join of words neither starts nor ends with whitespace */
  lemma {:induction false} JoinOfWordsHasNoEdgeSpace(ws: seq<string>)
    requires forall k :: 0 <= k < |ws| ==> IsWord(ws[k])
    ensures var r := Join(" ", ws); r == [] || (!IsSpace(r[0]) && !IsSpace(r[|r| - 1]))
    ensures ws != [] ==> Join(" ", ws) != []
    decreases |ws|
  {
    if |ws| > 1 {
      JoinOfWordsHasNoEdgeSpace(ws[1..]);
      var t := Join(" ", ws[1..]);
      assert Join(" ", ws) == ws[0] + " " + t;
      assert (ws[0] + " " + t)[0] == ws[0][0];
    }
  }

  /** Decimal rendering of a natural number, as `str(n)` prints it */
  function NatToString(n: nat): (r: string)
    ensures |r| > 0
    ensures forall i :: 0 <= i < |r| ==> '0' <= r[i] <= '9'
    ensures |r| > 1 ==> r[0] != '0'
    decreases n
  {
    var d := ['0' + (n % 10) as char];
    if n < 10 then d else NatToString(n / 10) + d
  }

  /** Decimal rendering of an integer, as `str(n)` prints it */
  function IntToString(n: int): string {
    if n < 0 then "-" + NatToString(-n) else NatToString(n)
  }
}
