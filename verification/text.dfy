/**
 * The JavaScript string operations the service layer relies on:
 * `String.prototype.includes`, `replace` with a one-character string pattern
 * (which replaces only the FIRST occurrence), and `toLowerCase`/`toUpperCase`
 * restricted to ASCII letters.
 */
module Text {

  /** `sub` occurs in `s` starting at index `i`. */
  predicate OccursAt(s: string, sub: string, i: int) {
    0 <= i && i + |sub| <= |s| && s[i..i + |sub|] == sub
  }

  /**
   * `s.includes(sub)`, scanning left to right: the empty pattern is always
   * found, a pattern longer than `s` never, and a prefix match always.
   */
  function Includes(s: string, sub: string): (found: bool)
    ensures |sub| == 0 ==> found
    ensures found ==> |sub| <= |s|
    ensures |sub| <= |s| && s[..|sub|] == sub ==> found
    decreases |s|
  {
    if |s| < |sub| then false
    else if s[..|sub|] == sub then true
    else Includes(s[1..], sub)
  }

  /** `Includes` holds exactly when `sub` occurs somewhere in `s`. */
  lemma {:induction false} IncludesIff(s: string, sub: string)
    ensures Includes(s, sub) <==> exists i :: OccursAt(s, sub, i)
    decreases |s|
  {
    if |s| < |sub| {
      assert forall i :: !OccursAt(s, sub, i);
    } else if s[..|sub|] == sub {
      assert OccursAt(s, sub, 0);
    } else {
      IncludesIff(s[1..], sub);
      if Includes(s[1..], sub) {
        var i :| OccursAt(s[1..], sub, i);
        assert s[1..][i..i + |sub|] == s[i + 1..i + 1 + |sub|];
        assert OccursAt(s, sub, i + 1);
      } else {
        forall i | OccursAt(s, sub, i)
          ensures false
        {
          assert i != 0;
          assert s[1..][i - 1..i - 1 + |sub|] == s[i..i + |sub|];
          assert OccursAt(s[1..], sub, i - 1);
        }
      }
    }
  }

  /** Each character of an occurrence sits at its offset from the start. */
  lemma OccursAtChar(s: string, sub: string, i: int, k: int)
    requires OccursAt(s, sub, i) && 0 <= k < |sub|
    ensures s[i + k] == sub[k]
  {
    assert s[i..i + |sub|][k] == s[i + k];
  }

  /** `sub` found inside `s` is still found once `tail` is appended. */
  lemma IncludesExtend(s: string, tail: string, sub: string)
    requires Includes(s, sub)
    ensures Includes(s + tail, sub)
  {
    IncludesIff(s, sub);
    var i :| OccursAt(s, sub, i);
    assert (s + tail)[i..i + |sub|] == s[i..i + |sub|];
    assert OccursAt(s + tail, sub, i);
    IncludesIff(s + tail, sub);
  }

  /** `sub` found inside `tail` is still found once `s` is put in front. */
  lemma IncludesPrepend(s: string, tail: string, sub: string)
    requires Includes(tail, sub)
    ensures Includes(s + tail, sub)
  {
    IncludesIff(tail, sub);
    var i :| OccursAt(tail, sub, i);
    assert (s + tail)[|s| + i..|s| + i + |sub|] == tail[i..i + |sub|];
    assert OccursAt(s + tail, sub, |s| + i);
    IncludesIff(s + tail, sub);
  }

  /**
   * When `tail` starts with a character `sub` lacks and `sub` starts with a
   * character `tail` lacks, `sub` is found in `s + tail` only if it is found in `s`.
   */
  lemma IncludesBeforeSeparator(s: string, tail: string, sub: string)
    requires |sub| > 0 && |tail| > 0 && tail[0] !in sub && sub[0] !in tail
    requires Includes(s + tail, sub)
    ensures Includes(s, sub)
  {
    var st := s + tail;
    IncludesIff(st, sub);
    var i :| OccursAt(st, sub, i);
    if i + |sub| <= |s| {
      assert st[i..i + |sub|] == s[i..i + |sub|];
      assert OccursAt(s, sub, i);
      IncludesIff(s, sub);
    } else if i <= |s| {
      OccursAtChar(st, sub, i, |s| - i);
      assert false;
    } else {
      OccursAtChar(st, sub, i, 0);
      assert false;
    }
  }

  /** Index of the first `ch` in `s`, or -1 when there is none (`indexOf`). */
  function IndexOf(s: string, ch: char): (i: int)
    ensures ch !in s <==> i == -1
    ensures ch in s ==> 0 <= i < |s| && s[i] == ch && ch !in s[..i]
  {
    if |s| == 0 then -1
    else if s[0] == ch then 0
    else
      var j := IndexOf(s[1..], ch);
      assert s[1..][..if j < 0 then 0 else j] == s[1..if j < 0 then 1 else j + 1];
      if j < 0 then -1 else j + 1
  }

  /** `s.replace(ch, '')` for a one-character pattern: only the first `ch` is removed. */
  function RemoveFirst(s: string, ch: char): (r: string)
    ensures ch !in s ==> r == s
    ensures ch in s ==> |r| == |s| - 1 && multiset(r) == multiset(s) - multiset{ch}
    ensures ch in s ==> r[..IndexOf(s, ch)] == s[..IndexOf(s, ch)] && r[IndexOf(s, ch)..] == s[IndexOf(s, ch) + 1..]
  {
    var i := IndexOf(s, ch);
    if i < 0 then s
    else
      assert s == s[..i] + [s[i]] + s[i + 1..];
      s[..i] + s[i + 1..]
  }

  function LowerChar(c: char): char {
    if 'A' <= c <= 'Z' then (c as int + 32) as char else c
  }

  function UpperChar(c: char): char {
    if 'a' <= c <= 'z' then (c as int - 32) as char else c
  }

  /** `s.toLowerCase()` on ASCII letters; every other character is kept. */
  function ToLower(s: string): (r: string)
    ensures |r| == |s|
    ensures forall i :: 0 <= i < |s| ==> r[i] == LowerChar(s[i])
  {
    seq(|s|, i requires 0 <= i < |s| => LowerChar(s[i]))
  }

  /** `s.toUpperCase()` on ASCII letters; every other character is kept. */
  function ToUpper(s: string): (r: string)
    ensures |r| == |s|
    ensures forall i :: 0 <= i < |s| ==> r[i] == UpperChar(s[i])
  {
    seq(|s|, i requires 0 <= i < |s| => UpperChar(s[i]))
  }

  /** Lower-casing leaves no ASCII capital, keeps every non-letter, and is idempotent. */
  lemma ToLowerSpec(s: string)
    ensures forall i :: 0 <= i < |s| ==> !('A' <= ToLower(s)[i] <= 'Z')
    ensures forall i :: 0 <= i < |s| && !('A' <= s[i] <= 'Z') ==> ToLower(s)[i] == s[i]
    ensures ToLower(ToLower(s)) == ToLower(s)
    ensures ToLower(ToUpper(s)) == ToLower(s)
  {
  }

  /** Upper-casing leaves no ASCII small letter, keeps every non-letter, and is idempotent. */
  lemma ToUpperSpec(s: string)
    ensures forall i :: 0 <= i < |s| ==> !('a' <= ToUpper(s)[i] <= 'z')
    ensures forall i :: 0 <= i < |s| && !('a' <= s[i] <= 'z') ==> ToUpper(s)[i] == s[i]
    ensures ToUpper(ToUpper(s)) == ToUpper(s)
    ensures ToUpper(ToLower(s)) == ToUpper(s)
  {
  }
}
