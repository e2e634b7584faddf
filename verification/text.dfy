/**
 The string primitives the config parser is built from. The source works on
 Python 2 byte strings through `str.strip`, `str.split` and three regular
 expressions; each is written out here as a plain function on `string`,
 computed by scanning indices.
 */
module Text {

  /** Whitespace as Python 2 byte strings see it: `str.strip()` and the regular
      expression class `\s` both mean space, tab, newline, carriage return,
      vertical tab and form feed. */
  predicate IsSpace(c: char) {
    c == ' ' || c == '\t' || c == '\n' || c == '\r' || c == VT || c == FF
  }

  /** Vertical tab and form feed. */
  const VT: char := 11 as char
  const FF: char := 12 as char

  predicate NoSpace(s: string) {
    forall i :: 0 <= i < |s| ==> !IsSpace(s[i])
  }

  predicate AllSpace(s: string) {
    forall i :: 0 <= i < |s| ==> IsSpace(s[i])
  }

  /** Neither end of `s` is whitespace: what `str.strip()` leaves. */
  predicate IsStripped(s: string) {
    s == [] || (!IsSpace(s[0]) && !IsSpace(s[|s| - 1]))
  }

  predicate StartsWith(s: string, prefix: string) {
    |prefix| <= |s| && s[..|prefix|] == prefix
  }

  /** A character missing from a string is missing from each of its slices. */
  lemma SliceLacks(s: string, i: nat, j: nat, c: char)
    requires i <= j <= |s| && c !in s
    ensures c !in s[i..j]
  {
    forall k | 0 <= k < j - i ensures s[i..j][k] != c {
      assert s[i..j][k] == s[i + k];
    }
  }

  /** The first index at or after `i` whose character is not whitespace, or `|s|`. */
  function SkipSpaces(s: string, i: nat): (j: nat)
    requires i <= |s|
    ensures i <= j <= |s|
    ensures forall k :: i <= k < j ==> IsSpace(s[k])
    ensures j < |s| ==> !IsSpace(s[j])
    decreases |s| - i
  {
    if i < |s| && IsSpace(s[i]) then SkipSpaces(s, i + 1) else i
  }

  /** The first index at or after `i` whose character is whitespace, or `|s|`. */
  function FirstSpace(s: string, i: nat): (j: nat)
    requires i <= |s|
    ensures i <= j <= |s|
    ensures forall k :: i <= k < j ==> !IsSpace(s[k])
    ensures j < |s| ==> IsSpace(s[j])
    decreases |s| - i
  {
    if i < |s| && !IsSpace(s[i]) then FirstSpace(s, i + 1) else i
  }

  /** Walking back from `j` no further than `lo`: the end of the text before a
      whitespace-only tail. */
  function SkipSpacesBack(s: string, lo: nat, j: nat): (b: nat)
    requires lo <= j <= |s|
    ensures lo <= b <= j
    ensures forall k :: b <= k < j ==> IsSpace(s[k])
    ensures b > lo ==> !IsSpace(s[b - 1])
    decreases j
  {
    if j > lo && IsSpace(s[j - 1]) then SkipSpacesBack(s, lo, j - 1) else j
  }

  /** The first index at or after `i` holding `c`, or `|s|`. */
  function Find(s: string, c: char, i: nat): (j: nat)
    requires i <= |s|
    ensures i <= j <= |s|
    ensures forall k :: i <= k < j ==> s[k] != c
    ensures j < |s| ==> s[j] == c
    decreases |s| - i
  {
    if i < |s| && s[i] != c then Find(s, c, i + 1) else i
  }

  /** The index just past the last `c` of `s`, or 0 when there is none. */
  function AfterLast(s: string, c: char, j: nat): (q: nat)
    requires j <= |s|
    ensures q <= j
    ensures forall k :: q <= k < j ==> s[k] != c
    ensures q == 0 || s[q - 1] == c
    decreases j
  {
    if j > 0 && s[j - 1] != c then AfterLast(s, c, j - 1) else j
  }

  /** The bounds `str.strip()` cuts at: whitespace before the first and after
      the second, and non-whitespace at both ends of what lies between. */
  function StripBounds(s: string): (b: (nat, nat))
    ensures b.0 <= b.1 <= |s|
    ensures forall k :: 0 <= k < b.0 ==> IsSpace(s[k])
    ensures forall k :: b.1 <= k < |s| ==> IsSpace(s[k])
    ensures b.0 < b.1 ==> !IsSpace(s[b.0]) && !IsSpace(s[b.1 - 1])
  {
    var a := SkipSpaces(s, 0);
    (a, SkipSpacesBack(s, a, |s|))
  }

  /** `s.strip()`. */
  function Strip(s: string): (r: string)
    ensures IsStripped(r)
    ensures |r| <= |s|
  {
    var (a, b) := StripBounds(s);
    s[a..b]
  }

  /** What `strip` removes is whitespace on both sides, and what it keeps is a
      contiguous part of the input with no whitespace at its ends. */
  lemma StripTrims(s: string)
    ensures exists a ::
              && 0 <= a <= |s| - |Strip(s)|
              && Strip(s) == s[a..a + |Strip(s)|]
              && AllSpace(s[..a]) && AllSpace(s[a + |Strip(s)|..])
  {
    var (a, b) := StripBounds(s);
    assert Strip(s) == s[a..a + |Strip(s)|];
    assert forall k :: 0 <= k < |s[..a]| ==> s[..a][k] == s[k];
    assert forall k :: 0 <= k < |s[b..]| ==> s[b..][k] == s[b + k];
  }

  /** Stripping never introduces a character. */
  lemma StripLacks(s: string, c: char)
    requires c !in s
    ensures c !in Strip(s)
  {
    var (a, b) := StripBounds(s);
    SliceLacks(s, a, b, c);
  }

  /** Stripping a string with no whitespace at its ends changes nothing. */
  lemma StripStripped(s: string)
    requires IsStripped(s)
    ensures Strip(s) == s
  {
    var (a, b) := StripBounds(s);
    if s != [] {
      assert a == 0;
      assert b == |s|;
    }
  }

  /** Stripping a string that starts with a non-blank keeps that character first. */
  lemma StripKeepsHead(s: string)
    requires s != [] && !IsSpace(s[0])
    ensures Strip(s) != [] && Strip(s)[0] == s[0]
  {
    var (a, b) := StripBounds(s);
    assert a == 0;
  }

  /**
   `re.sub(r'#.*$', '', s)` on a string that does not end in a newline.
   A match starts at a `#` from which `.*` (which stops at a newline) reaches
   the end of the string, so the removed tail starts at the first `#` after
   the last newline; every `#` kept lies before that newline. On a single
   line this is simply "cut at the first `#`".
   */
  function CutComment(s: string): (r: string)
    ensures |r| <= |s| && r == s[..|r|]
    ensures |r| < |s| ==> s[|r|] == '#'
    ensures forall k :: |r| <= k < |s| ==> s[k] != '\n'
    ensures forall k :: 0 <= k < |r| && s[k] == '#' ==> k < AfterLast(s, '\n', |s|)
    ensures '\n' !in s ==> '#' !in r
  {
    var q := AfterLast(s, '\n', |s|);
    var p := Find(s, '#', q);
    assert '\n' !in s ==> q == 0;
    s[..p]
  }

  /** The pieces of `s[i..]` between maximal runs of whitespace. */
  function Fields(s: string, i: nat): (r: seq<string>)
    requires i <= |s|
    ensures |r| >= 1
    ensures forall k :: 0 <= k < |r| ==> NoSpace(r[k])
    ensures i < |s| && !IsSpace(s[i]) && !IsSpace(s[|s| - 1]) ==> forall k :: 0 <= k < |r| ==> r[k] != []
    decreases |s| - i
  {
    var j := FirstSpace(s, i);
    if j == |s| then
      [s[i..]]
    else
      [s[i..j]] + Fields(s, SkipSpaces(s, j))
  }

  /**
   `re.split(r'\s+', s)`: the pieces between maximal runs of whitespace. A run
   at the start or the end yields an empty first or last piece, and the empty
   string yields one empty piece. On a stripped non-empty string every piece
   is non-empty.
   */
  function SplitWs(s: string): (r: seq<string>)
    ensures |r| >= 1
    ensures forall k :: 0 <= k < |r| ==> NoSpace(r[k])
    ensures IsStripped(s) && s != [] ==> forall k :: 0 <= k < |r| ==> r[k] != []
  {
    Fields(s, 0)
  }

  /** A character missing from `s` is missing from every piece of its split. */
  lemma {:induction false} FieldsLack(s: string, i: nat, c: char)
    requires i <= |s| && c !in s
    ensures forall k :: 0 <= k < |Fields(s, i)| ==> c !in Fields(s, i)[k]
    decreases |s| - i
  {
    var j := FirstSpace(s, i);
    if j == |s| {
      SliceLacks(s, i, |s|, c);
      assert s[i..|s|] == s[i..];
    } else {
      SliceLacks(s, i, j, c);
      FieldsLack(s, SkipSpaces(s, j), c);
    }
  }

  /** `FirstSpace` is pinned down by its contract. */
  lemma FirstSpaceIs(s: string, i: nat, p: nat)
    requires i <= p <= |s|
    requires forall k :: i <= k < p ==> !IsSpace(s[k])
    requires p < |s| ==> IsSpace(s[p])
    ensures FirstSpace(s, i) == p
  {
  }

  /** `SkipSpaces` is pinned down by its contract. */
  lemma SkipSpacesIs(s: string, i: nat, p: nat)
    requires i <= p <= |s|
    requires forall k :: i <= k < p ==> IsSpace(s[k])
    requires p < |s| ==> !IsSpace(s[p])
    ensures SkipSpaces(s, i) == p
  {
  }

  /** `Find` is pinned down by its contract. */
  lemma FindIs(s: string, c: char, i: nat, p: nat)
    requires i <= p <= |s|
    requires forall k :: i <= k < p ==> s[k] != c
    requires p < |s| ==> s[p] == c
    ensures Find(s, c, i) == p
  {
  }

  /** A string holding none of the six whitespace characters has no whitespace. */
  lemma NoSpaceChars(s: string)
    requires ' ' !in s && '\t' !in s && '\n' !in s && '\r' !in s && VT !in s && FF !in s
    ensures NoSpace(s)
  {
  }

  /** A string without `#` loses nothing to comment removal. */
  lemma CutCommentNoHash(s: string)
    requires '#' !in s
    ensures CutComment(s) == s
  {
  }

  /** A key, a whitespace gap and a value split into exactly the key and the value. */
  lemma PairSplit(key: string, gap: string, value: string)
    requires key != [] && NoSpace(key)
    requires gap != [] && AllSpace(gap)
    requires value != [] && NoSpace(value)
    ensures SplitWs(key + gap + value) == [key, value]
  {
    var s := key + gap + value;
    var m := |key| + |gap|;
    assert forall k :: 0 <= k < |key| ==> s[k] == key[k];
    assert forall k :: |key| <= k < m ==> s[k] == gap[k - |key|];
    assert forall k :: m <= k < |s| ==> s[k] == value[k - m];
    FirstSpaceIs(s, 0, |key|);
    SkipSpacesIs(s, |key|, m);
    FirstSpaceIs(s, m, |s|);
    assert s[0..|key|] == key;
    assert s[m..] == value;
    assert Fields(s, m) == [value];
    assert Fields(s, 0) == [key] + Fields(s, m);
  }

  /** A word followed by one space and a further word is split off first. */
  lemma FieldsCons(s: string, i: nat, w: string)
    requires w != [] && NoSpace(w) && i + |w| + 1 < |s|
    requires s[i..i + |w|] == w && s[i + |w|] == ' ' && !IsSpace(s[i + |w| + 1])
    ensures Fields(s, i) == [w] + Fields(s, i + |w| + 1)
  {
    assert forall k :: i <= k < i + |w| ==> s[k] == w[k - i];
    FirstSpaceIs(s, i, i + |w|);
    SkipSpacesIs(s, i + |w|, i + |w| + 1);
  }

  /** A final word is the last piece. */
  lemma FieldsLast(s: string, i: nat, w: string)
    requires i < |s| && s[i..] == w && NoSpace(w)
    ensures Fields(s, i) == [w]
  {
    assert forall k :: i <= k < |s| ==> s[k] == w[k - i];
    FirstSpaceIs(s, i, |s|);
  }

  lemma Cons3<T>(x: seq<T>, y: seq<T>, z: seq<T>, a: T, b: T, c: T)
    requires x == [a] + y && y == [b] + z && z == [c]
    ensures x == [a, b, c]
  {
  }

  /** Three whitespace-free words joined by single spaces split into those
      three words. */
  lemma TripleSplit(a: string, b: string, c: string)
    requires a != [] && NoSpace(a)
    requires b != [] && NoSpace(b)
    requires c != [] && NoSpace(c)
    ensures SplitWs(a + " " + b + " " + c) == [a, b, c]
  {
    var s := a + " " + b + " " + c;
    var m := |a| + 1;
    var n := m + |b| + 1;
    assert s[0..|a|] == a;
    assert s[|a|] == ' ' && s[m] == b[0];
    assert s[m..m + |b|] == b;
    assert s[m + |b|] == ' ' && s[n] == c[0];
    assert s[n..] == c;
    FieldsLast(s, n, c);
    FieldsCons(s, m, b);
    FieldsCons(s, 0, a);
    Cons3(Fields(s, 0), Fields(s, m), Fields(s, n), a, b, c);
  }

  /** Conversely, a stripped line that splits into two pieces is those two
      pieces around a non-empty whitespace gap. */
  lemma PairSplitInverse(s: string)
    requires IsStripped(s) && s != []
    requires |SplitWs(s)| == 2
    ensures var t := SplitWs(s);
      && |t[0]| + |t[1]| < |s|
      && s == t[0] + s[|t[0]|..|s| - |t[1]|] + t[1]
      && AllSpace(s[|t[0]|..|s| - |t[1]|])
  {
    var j := FirstSpace(s, 0);
    assert j < |s|;
    var m := SkipSpaces(s, j);
    var rest := Fields(s, m);
    assert Fields(s, 0) == [s[0..j]] + rest;
    assert |rest| == 1;
    assert FirstSpace(s, m) == |s|;
    var t := SplitWs(s);
    assert t[0] == s[..j];
    assert t[1] == s[m..];
    assert s == s[..j] + s[j..m] + s[m..];
  }

  /** `s.split(c)`: the pieces between the occurrences of `c`. */
  function SplitOn(s: string, c: char): (r: seq<string>)
    ensures |r| >= 1
    ensures forall k :: 0 <= k < |r| ==> c !in r[k]
    ensures |r| == 1 <==> c !in s
    ensures Join(r, c) == s
    decreases |s|
  {
    var i := Find(s, c, 0);
    if i == |s| then
      [s]
    else
      var tail := SplitOn(s[i + 1..], c);
      var r := [s[..i]] + tail;
      assert r[1..] == tail;
      assert s == s[..i] + [c] + s[i + 1..];
      r
  }

  /** The inverse of `SplitOn`: the pieces glued back with the separator. */
  function Join(parts: seq<string>, c: char): string
    requires |parts| >= 1
  {
    if |parts| == 1 then parts[0] else parts[0] + [c] + Join(parts[1..], c)
  }
}
