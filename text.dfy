/** String helpers with Python's meaning: str.strip, the `in` operator on
    strings, str.split, str.lower and the code-point ordering that both
    Python and SQLite use to compare text. */
module Text {
  import opened Wrappers

  /** Python's str.isspace on one character. */
  predicate IsSpace(c: char) {
    || c == ' '
    || ('\t' <= c <= '\r')
    || ('\U{1C}' <= c <= '\U{1F}')
    || c == '\U{85}' || c == '\U{A0}' || c == '\U{1680}'
    || ('\U{2000}' <= c <= '\U{200A}')
    || c == '\U{2028}' || c == '\U{2029}' || c == '\U{202F}'
    || c == '\U{205F}' || c == '\U{3000}'
  }

  predicate AllSpace(s: string) {
    forall i :: 0 <= i < |s| ==> IsSpace(s[i])
  }

  /** The index of the first non-whitespace character at or after i, or |s|. */
  function SkipSpace(s: string, i: nat): (r: nat)
    requires i <= |s|
    decreases |s| - i
    ensures i <= r <= |s|
    ensures forall k :: i <= k < r ==> IsSpace(s[k])
    ensures r == |s| || !IsSpace(s[r])
  {
    if i < |s| && IsSpace(s[i]) then SkipSpace(s, i + 1) else i
  }

  /** The index just after the last non-whitespace character before j, or 0. */
  function SkipSpaceBack(s: string, j: nat): (r: nat)
    requires j <= |s|
    ensures r <= j
    ensures forall k :: r <= k < j ==> IsSpace(s[k])
    ensures r == 0 || !IsSpace(s[r - 1])
  {
    if j > 0 && IsSpace(s[j - 1]) then SkipSpaceBack(s, j - 1) else j
  }

  /** str.strip(): the slice between the first and the last non-whitespace
      characters; everything cut off on either side is whitespace. */
  function Strip(s: string): (r: string)
    ensures r == [] || (!IsSpace(r[0]) && !IsSpace(r[|r| - 1]))
  {
    var i := SkipSpace(s, 0);
    var j := SkipSpaceBack(s, |s|);
    if j <= i then "" else s[i..j]
  }

  /** Strip keeps one contiguous slice of its argument and drops only
      whitespace on either side of it. */
  lemma StripIsSlice(s: string)
    ensures var r := Strip(s);
      exists i {:trigger s[..i]} :: 0 <= i <= |s| - |r| && r == s[i..i + |r|]
        && AllSpace(s[..i]) && AllSpace(s[i + |r|..])
  {
    var i := SkipSpace(s, 0);
    var j := SkipSpaceBack(s, |s|);
    if j <= i {
      assert i == |s|;
      assert s[..|s|] == s && s[|s|..] == [];
    } else {
      assert Strip(s) == s[i..j];
      assert AllSpace(s[..i]);
      assert AllSpace(s[j..]);
    }
  }

  lemma NoSpaceStrip(s: string)
    requires s != [] && !IsSpace(s[0]) && !IsSpace(s[|s| - 1])
    ensures Strip(s) == s
  {
    assert s[0..|s|] == s;
  }

  /** `sub` occurs in `s` starting at index i. */
  predicate OccursAt(s: string, sub: string, i: int) {
    0 <= i && i + |sub| <= |s| && s[i..i + |sub|] == sub
  }

  /** str.find(sub, from): the first index at or after `from` where `sub` occurs. */
  function Find(s: string, sub: string, from: nat): (r: Option<nat>)
    decreases |s| - from
    ensures r.Some? ==> from <= r.value && OccursAt(s, sub, r.value)
    ensures r.Some? ==> forall i :: from <= i < r.value ==> !OccursAt(s, sub, i)
    ensures r.None? ==> forall i :: from <= i ==> !OccursAt(s, sub, i)
  {
    if from + |sub| > |s| then None
    else if s[from..from + |sub|] == sub then Some(from)
    else Find(s, sub, from + 1)
  }

  /** Find stops at the first occurrence at or after `from`, whichever it is. */
  lemma FindAt(s: string, sub: string, from: nat, j: nat)
    requires from <= j && OccursAt(s, sub, j)
    requires forall i :: from <= i < j ==> !OccursAt(s, sub, i)
    ensures Find(s, sub, from) == Some(j)
  {
  }

  /** Python's `sub in s`. */
  predicate Contains(s: string, sub: string) {
    Find(s, sub, 0).Some?
  }

  /** One occurrence is enough for `in`. */
  lemma OccursContains(s: string, sub: string, i: int)
    requires OccursAt(s, sub, i)
    ensures Contains(s, sub)
  {
    ContainsIff(s, sub);
  }

  /** An occurrence inside s[lo..hi] is an occurrence in the slice. */
  lemma OccursInSlice(s: string, sub: string, lo: nat, hi: nat, i: nat)
    requires lo <= i && i + |sub| <= hi <= |s| && OccursAt(s, sub, i)
    ensures OccursAt(s[lo..hi], sub, i - lo)
  {
    var a := s[lo..hi][i - lo..i - lo + |sub|];
    var b := s[i..i + |sub|];
    forall k | 0 <= k < |sub|
      ensures a[k] == b[k]
    {
    }
    assert a == b;
  }

  lemma ContainsIff(s: string, sub: string)
    ensures Contains(s, sub) <==> exists i :: OccursAt(s, sub, i)
  {
    if exists i :: OccursAt(s, sub, i) {
      var i :| OccursAt(s, sub, i);
      assert Find(s, sub, 0).Some?;
    }
  }

  /** s.split(sep)[0]: the text before the first occurrence of sep, or all of s. */
  function SplitHead(s: string, sep: string): (r: string)
    requires sep != ""
    ensures |r| <= |s| && r == s[..|r|]
    ensures !Contains(s, sep) ==> r == s
    ensures Contains(s, sep) ==> OccursAt(s, sep, |r|)
    ensures forall i :: 0 <= i < |r| ==> !OccursAt(s, sep, i)
  {
    match Find(s, sep, 0)
    case None => s
    case Some(i) => s[..i]
  }

  /** s.split(sep)[1] when sep occurs in s: the text between the first
      occurrence and the next one found after it (or the end of s). */
  function SplitSecond(s: string, sep: string): (r: Option<string>)
    requires sep != ""
    ensures r.Some? <==> Contains(s, sep)
    ensures r.Some? ==> exists i :: OccursAt(s, sep, i) && r.value == SecondPiece(s, sep, i)
                                   && (forall j :: 0 <= j < i ==> !OccursAt(s, sep, j))
  {
    match Find(s, sep, 0)
    case None => None
    case Some(i) => Some(SecondPiece(s, sep, i))
  }

  /** The piece of s that follows the occurrence of sep at i, up to the next
      non-overlapping occurrence. */
  function SecondPiece(s: string, sep: string, i: nat): (r: string)
    requires sep != "" && OccursAt(s, sep, i)
    ensures |r| <= |s| - i - |sep| && r == s[i + |sep|..i + |sep| + |r|]
    ensures forall k :: i + |sep| <= k < i + |sep| + |r| ==> !OccursAt(s, sep, k)
    ensures i + |sep| + |r| == |s| || OccursAt(s, sep, i + |sep| + |r|)
  {
    match Find(s, sep, i + |sep|)
    case None => s[i + |sep|..]
    case Some(j) => s[i + |sep|..j]
  }

  /** Splitting head + sep + tail at its first sep gives back the head,
      when sep does not start anywhere inside head. */
  lemma SplitHeadJoin(head: string, sep: string, tail: string)
    requires sep != ""
    requires forall i :: 0 <= i < |head| ==> !OccursAt(head + sep + tail, sep, i)
    ensures SplitHead(head + sep + tail, sep) == head
  {
    var s := head + sep + tail;
    assert s[|head|..|head| + |sep|] == sep;
    FindAt(s, sep, 0, |head|);
  }

  /** The second piece of head + sep + mid + rest is mid, when sep starts
      nowhere inside head or mid and rest is empty or begins with sep. */
  lemma SplitSecondJoin(head: string, sep: string, mid: string, rest: string)
    requires sep != ""
    requires forall i :: 0 <= i < |head| ==> !OccursAt(head + sep + mid + rest, sep, i)
    requires forall i :: |head| + |sep| <= i < |head| + |sep| + |mid| ==> !OccursAt(head + sep + mid + rest, sep, i)
    requires rest == [] || (|sep| <= |rest| && rest[..|sep|] == sep)
    ensures SplitSecond(head + sep + mid + rest, sep) == Some(mid)
  {
    var s := head + sep + mid + rest;
    var a := |head| + |sep|;
    assert s[|head|..a] == sep;
    FindAt(s, sep, 0, |head|);
    if rest == [] {
      assert Find(s, sep, a) == None;
      assert s[a..] == mid;
    } else {
      assert s[a + |mid|..a + |mid| + |sep|] == rest[..|sep|];
      FindAt(s, sep, a, a + |mid|);
      assert s[a..a + |mid|] == mid;
    }
  }

  /** A separator that does not occur in b does not start anywhere it
      would lie wholly inside b, whatever surrounds b. */
  lemma NotInside(a: string, b: string, c: string, sub: string)
    requires !Contains(b, sub)
    ensures forall i :: |a| <= i && i + |sub| <= |a| + |b| ==> !OccursAt(a + b + c, sub, i)
  {
    forall i | |a| <= i && i + |sub| <= |a| + |b| ensures !OccursAt(a + b + c, sub, i) {
      if OccursAt(a + b + c, sub, i) {
        assert (a + b + c)[i..i + |sub|] == b[i - |a|..i - |a| + |sub|];
        assert OccursAt(b, sub, i - |a|);
        ContainsIff(b, sub);
      }
    }
  }

  /** A one-character separator starts inside a text only where that text
      contains it. */
  lemma CharNotInside(head: string, c: char, tail: string)
    requires !Contains(head, [c])
    ensures forall i :: 0 <= i < |head| ==> !OccursAt(head + [c] + tail, [c], i)
  {
    forall i | 0 <= i < |head| ensures !OccursAt(head + [c] + tail, [c], i) {
      if OccursAt(head + [c] + tail, [c], i) {
        assert head[i..i + 1] == [c];
        assert OccursAt(head, [c], i);
        ContainsIff(head, [c]);
      }
    }
  }

  // ---------------------------------------------------------------------
  // Case and order

  /** str.lower() on the ASCII letters. */
  function LowerChar(c: char): (r: char)
    ensures 'A' <= c <= 'Z' ==> r as int == c as int + 32
    ensures !('A' <= c <= 'Z') ==> r == c
  {
    if 'A' <= c <= 'Z' then (c as int + 32) as char else c
  }

  function Lower(s: string): (r: string)
    ensures |r| == |s|
    ensures forall i :: 0 <= i < |s| ==> r[i] == LowerChar(s[i])
  {
    seq(|s|, i requires 0 <= i < |s| => LowerChar(s[i]))
  }

  /** Code-point lexicographic order: Python's `<=` on str, and SQLite's
      BINARY collation on UTF-8 text. */
  predicate LexLe(a: string, b: string) {
    a == [] || (b != [] && (a[0] < b[0] || (a[0] == b[0] && LexLe(a[1..], b[1..]))))
  }

  lemma {:induction false} LexLeRefl(a: string)
    ensures LexLe(a, a)
  {
    if a != [] { LexLeRefl(a[1..]); }
  }

  lemma {:induction false} LexLeTotal(a: string, b: string)
    ensures LexLe(a, b) || LexLe(b, a)
  {
    if a != [] && b != [] && a[0] == b[0] { LexLeTotal(a[1..], b[1..]); }
  }

  lemma {:induction false} LexLeTrans(a: string, b: string, c: string)
    requires LexLe(a, b) && LexLe(b, c)
    ensures LexLe(a, c)
  {
    if a != [] && b != [] && c != [] && a[0] == b[0] == c[0] {
      LexLeTrans(a[1..], b[1..], c[1..]);
    }
  }

  lemma {:induction false} LexLeAntisym(a: string, b: string)
    requires LexLe(a, b) && LexLe(b, a)
    ensures a == b
  {
    if a != [] && b != [] {
      LexLeAntisym(a[1..], b[1..]);
      assert a == [a[0]] + a[1..];
      assert b == [b[0]] + b[1..];
    }
  }

  /** Concatenation of a list of strings, as "".join(parts). */
  function Concat(parts: seq<string>): (r: string)
    ensures parts == [] ==> r == ""
  {
    if parts == [] then "" else Concat(parts[..|parts| - 1]) + parts[|parts| - 1]
  }
}
