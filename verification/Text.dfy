/** The string operations the program takes from Go's `strings` package.
    A string is a sequence of Unicode characters; `ByteLength` gives its length in UTF-8 bytes. */
module Text {
  function AsciiLower(c: char): char {
    if 'A' <= c <= 'Z' then c - 'A' + 'a' else c
  }

  /** Equal up to ASCII letter case. */
  predicate SameLetter(c: char, d: char) {
    || c == d
    || ('A' <= c <= 'Z' && d as int == c as int + 32)
    || ('a' <= c <= 'z' && d as int == c as int - 32)
  }

  predicate SameButCase(s: string, t: string) {
    |s| == |t| && forall i :: 0 <= i < |s| ==> SameLetter(s[i], t[i])
  }

  lemma AsciiLowerMeaning(c: char, d: char)
    ensures AsciiLower(c) == AsciiLower(d) <==> SameLetter(c, d)
  {
  }

  /** What is assumed of Unicode lower-casing: it is ASCII lower-casing on ASCII, and it is idempotent. */
  ghost predicate LowersAscii(f: char -> char) {
    forall c: char :: (c as int < 128 ==> f(c) == AsciiLower(c)) && f(f(c)) == f(c)
  }

  type Casing = f: char -> char | LowersAscii(f) witness (c: char) => AsciiLower(c)

  function Lower(fold: Casing, s: string): (r: string)
    ensures |r| == |s| && forall i :: 0 <= i < |s| ==> r[i] == fold(s[i])
  {
    seq(|s|, i requires 0 <= i < |s| => fold(s[i]))
  }

  predicate IsAscii(s: string) {
    forall i :: 0 <= i < |s| ==> s[i] as int < 128
  }

  /** On ASCII, "the same in lower case" means the same up to letter case, whatever the casing does elsewhere. */
  lemma LowerMeaning(fold: Casing, s: string, t: string)
    requires IsAscii(s) && IsAscii(t)
    ensures Lower(fold, s) == Lower(fold, t) <==> SameButCase(s, t)
  {
    var a, b := Lower(fold, s), Lower(fold, t);
    forall i | 0 <= i < |s| && i < |t|
      ensures a[i] == b[i] <==> SameLetter(s[i], t[i])
    {
      AsciiLowerMeaning(s[i], t[i]);
    }
    assert a == b ==> |s| == |t|;
  }

  lemma LowerIdempotent(fold: Casing, s: string)
    ensures Lower(fold, Lower(fold, s)) == Lower(fold, s)
  {
  }

  lemma LowerConcat(fold: Casing, s: string, t: string)
    ensures Lower(fold, s + t) == Lower(fold, s) + Lower(fold, t)
  {
  }

  predicate IsSpace(c: char) {
    var u := c as int;
    9 <= u <= 13 || u == 0x20 || u == 0x85 || u == 0xA0 || u == 0x1680 || 0x2000 <= u <= 0x200A
    || u == 0x2028 || u == 0x2029 || u == 0x202F || u == 0x205F || u == 0x3000
  }

  function TrimLeft(s: string): (r: string)
    ensures |r| <= |s| && (r != "" ==> !IsSpace(r[0]))
    ensures s != "" && !IsSpace(s[0]) ==> r == s
  {
    if s != "" && IsSpace(s[0]) then TrimLeft(s[1..]) else s
  }

  function TrimRight(s: string): (r: string)
    ensures r <= s && (r != "" ==> !IsSpace(r[|r| - 1]))
    ensures s != "" && !IsSpace(s[|s| - 1]) ==> r == s
  {
    if s != "" && IsSpace(s[|s| - 1]) then TrimRight(s[..|s| - 1]) else s
  }

  function TrimSpace(s: string): (r: string)
    ensures r != "" ==> !IsSpace(r[0]) && !IsSpace(r[|r| - 1])
    ensures s != "" && !IsSpace(s[0]) && !IsSpace(s[|s| - 1]) ==> r == s
  {
    TrimRight(TrimLeft(s))
  }

  predicate AllSpace(s: string) {
    forall i :: 0 <= i < |s| ==> IsSpace(s[i])
  }

  predicate NoEdgeSpace(s: string) {
    s == "" || (!IsSpace(s[0]) && !IsSpace(s[|s| - 1]))
  }

  ghost predicate TrimsTo(s: string, t: string, before: string, after: string) {
    AllSpace(before) && AllSpace(after) && s == before + t + after
  }

  lemma {:induction false} TrimLeftDrops(before: string, s: string)
    requires AllSpace(before)
    ensures TrimLeft(before + s) == TrimLeft(s)
  {
    if before != "" {
      assert IsSpace(before[0]) && (before + s)[1..] == before[1..] + s;
      TrimLeftDrops(before[1..], s);
    } else {
      assert before + s == s;
    }
  }

  lemma {:induction false} TrimRightDrops(s: string, after: string)
    requires AllSpace(after)
    ensures TrimRight(s + after) == TrimRight(s)
  {
    if after != "" {
      var n := |after| - 1;
      assert IsSpace(after[n]) && (s + after)[..|s + after| - 1] == s + after[..n];
      TrimRightDrops(s, after[..n]);
    } else {
      assert s + after == s;
    }
  }

  lemma {:induction false} TrimLeftLeaves(s: string) returns (before: string)
    ensures AllSpace(before) && s == before + TrimLeft(s)
  {
    before := "";
    if s != "" && IsSpace(s[0]) {
      before := TrimLeftLeaves(s[1..]);
      before := [s[0]] + before;
    }
  }

  lemma {:induction false} TrimRightLeaves(s: string) returns (after: string)
    ensures AllSpace(after) && s == TrimRight(s) + after
  {
    after := "";
    if s != "" && IsSpace(s[|s| - 1]) {
      after := TrimRightLeaves(s[..|s| - 1]);
      after := after + [s[|s| - 1]];
    }
  }

  /** Trimming removes exactly a prefix and a suffix of white space and leaves none at either end. */
  lemma TrimSpaceMeaning(s: string, t: string)
    ensures TrimSpace(s) == t <==> NoEdgeSpace(t) && exists before, after :: TrimsTo(s, t, before, after)
  {
    if TrimSpace(s) == t {
      var before := TrimLeftLeaves(s);
      var after := TrimRightLeaves(TrimLeft(s));
      assert TrimsTo(s, t, before, after);
    }
    if before, after :| NoEdgeSpace(t) && TrimsTo(s, t, before, after) {
      Trimmed(before, t, after);
    }
  }

  lemma Trimmed(before: string, t: string, after: string)
    requires AllSpace(before) && AllSpace(after) && NoEdgeSpace(t)
    ensures TrimSpace(before + t + after) == t
  {
    assert before + t + after == before + (t + after);
    TrimLeftDrops(before, t + after);
    if t == "" {
      assert t + after == after + "";
      TrimLeftDrops(after, "");
    } else {
      assert (t + after)[0] == t[0];
      TrimRightDrops(t, after);
    }
  }

  lemma TrimSpaceIsAscii(s: string)
    requires IsAscii(s)
    ensures IsAscii(TrimSpace(s))
  {
    TrimSpaceMeaning(s, TrimSpace(s));
    var before, after :| TrimsTo(s, TrimSpace(s), before, after);
    forall i | 0 <= i < |TrimSpace(s)|
      ensures TrimSpace(s)[i] as int < 128
    {
      assert TrimSpace(s)[i] == s[|before| + i];
    }
  }

  function Width(c: char): nat {
    var u := c as int;
    if u < 0x80 then 1 else if u < 0x800 then 2 else if u < 0x10000 then 3 else 4
  }

  function ByteLength(s: string): (n: nat)
    ensures |s| <= n <= 4 * |s|
    ensures (forall i :: 0 <= i < |s| ==> s[i] as int < 128) ==> n == |s|
  {
    if s == "" then 0 else Width(s[0]) + ByteLength(s[1..])
  }

  predicate HasSuffix(s: string, suffix: string) {
    |suffix| <= |s| && s[|s| - |suffix|..] == suffix
  }

  function TrimSuffix(s: string, suffix: string): (r: string)
    ensures if HasSuffix(s, suffix) then s == r + suffix else r == s
  {
    if HasSuffix(s, suffix) then s[..|s| - |suffix|] else s
  }

  /** The index of the first `c` in `s`, or `|s|` when there is none. */
  function IndexOf(s: string, c: char): (i: nat)
    ensures i <= |s| && (i < |s| ==> s[i] == c) && c !in s[..i]
  {
    if s == "" || s[0] == c then 0 else 1 + IndexOf(s[1..], c)
  }

  /** One past the index of the last `c` in `s`, or 0 when there is none. */
  function AfterLast(s: string, c: char): (i: nat)
    ensures i <= |s| && (i > 0 ==> s[i - 1] == c) && c !in s[i..]
  {
    if s == "" then 0 else if s[|s| - 1] == c then |s| else AfterLast(s[..|s| - 1], c)
  }
}
