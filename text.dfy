/** String operations the services rely on: `toLowerCase`, `includes`,
    case-insensitive `contains` and `trim`, restricted to ASCII. */
module Text {

  function LowerChar(c: char): char {
    if 'A' <= c <= 'Z' then (c as int + 32) as char else c
  }

  /** `s.toLowerCase()` on ASCII letters. */
  function Lower(s: string): (r: string)
    ensures |r| == |s|
    ensures forall i :: 0 <= i < |s| ==> r[i] == LowerChar(s[i])
  {
    seq(|s|, i requires 0 <= i < |s| => LowerChar(s[i]))
  }

  ghost predicate OccursAt(hay: string, needle: string, i: int) {
    0 <= i && i + |needle| <= |hay| && hay[i..i + |needle|] == needle
  }

  /** `hay.includes(needle)`: the needle occurs at some position of the hay. */
  function Contains(hay: string, needle: string): (r: bool)
    ensures r <==> exists i :: OccursAt(hay, needle, i)
    decreases |hay|
  {
    if |needle| > |hay| then
      assert forall i :: !OccursAt(hay, needle, i);
      false
    else if hay[..|needle|] == needle then
      assert OccursAt(hay, needle, 0);
      true
    else
      var r := Contains(hay[1..], needle);
      assert r ==> exists i :: OccursAt(hay, needle, i) by {
        if r {
          var k :| OccursAt(hay[1..], needle, k);
          assert hay[k + 1..k + 1 + |needle|] == hay[1..][k..k + |needle|];
          assert OccursAt(hay, needle, k + 1);
        }
      }
      assert (exists i :: OccursAt(hay, needle, i)) ==> r by {
        if exists i :: OccursAt(hay, needle, i) {
          var k :| OccursAt(hay, needle, k);
          assert k != 0;
          assert hay[1..][k - 1..k - 1 + |needle|] == hay[k..k + |needle|];
          assert OccursAt(hay[1..], needle, k - 1);
        }
      }
      r
  }

  /** A case-insensitive `contains`: both sides are lower-cased first. */
  function ContainsIgnoringCase(hay: string, needle: string): bool {
    Contains(Lower(hay), Lower(needle))
  }

  /** The characters `String.prototype.trim` removes, restricted to ASCII. */
  predicate IsSpace(c: char) {
    c == ' ' || c == '\t' || c == '\n' || c == '\r' || c == '\U{000B}' || c == '\U{000C}'
  }

  function TrimStart(s: string): (r: string)
    ensures |r| <= |s|
  {
    if s != [] && IsSpace(s[0]) then TrimStart(s[1..]) else s
  }

  function TrimEnd(s: string): (r: string)
    ensures |r| <= |s|
  {
    if s != [] && IsSpace(s[|s| - 1]) then TrimEnd(s[..|s| - 1]) else s
  }

  /** `TrimStart` drops a run of whitespace and stops at the first other
      character. */
  lemma {:induction false} TrimStartFacts(s: string)
    ensures var a := TrimStart(s);
      && a == s[|s| - |a|..]
      && (forall k :: 0 <= k < |s| - |a| ==> IsSpace(s[k]))
      && (a == [] || !IsSpace(a[0]))
    decreases |s|
  {
    if s != [] && IsSpace(s[0]) {
      TrimStartFacts(s[1..]);
      var a := TrimStart(s[1..]);
      assert s[1..][|s| - 1 - |a|..] == s[|s| - |a|..];
      forall k | 0 <= k < |s| - |a| ensures IsSpace(s[k]) {
        if k > 0 {
          assert s[k] == s[1..][k - 1];
        }
      }
    }
  }

  /** `TrimEnd` drops a run of whitespace at the end and stops at the last
      other character. */
  lemma {:induction false} TrimEndFacts(s: string)
    ensures var r := TrimEnd(s);
      && r == s[..|r|]
      && (forall k :: |r| <= k < |s| ==> IsSpace(s[k]))
      && (r == [] || !IsSpace(r[|r| - 1]))
    decreases |s|
  {
    if s != [] && IsSpace(s[|s| - 1]) {
      var t := s[..|s| - 1];
      TrimEndFacts(t);
      var r := TrimEnd(t);
      assert t[..|r|] == s[..|r|];
      forall k | |r| <= k < |s| ensures IsSpace(s[k]) {
        if k < |s| - 1 {
          assert s[k] == t[k];
        }
      }
    }
  }

  lemma SliceOfSuffix(s: string, k: nat, n: nat)
    requires k + n <= |s|
    ensures s[k..][..n] == s[k..k + n]
  {
  }

  /** `s.trim()`: the longest slice of `s` that neither starts nor ends with
      whitespace; empty exactly when `s` is all whitespace. */
  function Trim(s: string): (r: string)
    ensures exists i :: OccursAt(s, r, i)
    ensures exists i, j :: 0 <= i <= j <= |s| && r == s[i..j]
                           && (forall k :: 0 <= k < i ==> IsSpace(s[k]))
                           && (forall k :: j <= k < |s| ==> IsSpace(s[k]))
    ensures r == [] || (!IsSpace(r[0]) && !IsSpace(r[|r| - 1]))
    ensures r == [] <==> forall i :: 0 <= i < |s| ==> IsSpace(s[i])
  {
    TrimFacts(s);
    TrimEnd(TrimStart(s))
  }

  lemma TrimFacts(s: string)
    ensures var r := TrimEnd(TrimStart(s));
      && (exists i :: OccursAt(s, r, i))
      && (exists i, j :: 0 <= i <= j <= |s| && r == s[i..j]
                         && (forall k :: 0 <= k < i ==> IsSpace(s[k]))
                         && (forall k :: j <= k < |s| ==> IsSpace(s[k])))
      && (r == [] || (!IsSpace(r[0]) && !IsSpace(r[|r| - 1])))
      && (r == [] <==> forall i :: 0 <= i < |s| ==> IsSpace(s[i]))
  {
    var a := TrimStart(s);
    TrimStartFacts(s);
    TrimEndFacts(a);
    TrimmedFacts(s, a, TrimEnd(a));
  }

  /** The facts of `TrimFacts` for any `a` and `r` with the properties
      `TrimStart` and `TrimEnd` guarantee. */
  lemma TrimmedFacts(s: string, a: string, r: string)
    requires |a| <= |s| && a == s[|s| - |a|..]
    requires forall k :: 0 <= k < |s| - |a| ==> IsSpace(s[k])
    requires a == [] || !IsSpace(a[0])
    requires |r| <= |a| && r == a[..|r|]
    requires forall k :: |r| <= k < |a| ==> IsSpace(a[k])
    requires r == [] || !IsSpace(r[|r| - 1])
    ensures exists i :: OccursAt(s, r, i)
    ensures exists i, j :: 0 <= i <= j <= |s| && r == s[i..j]
                           && (forall k :: 0 <= k < i ==> IsSpace(s[k]))
                           && (forall k :: j <= k < |s| ==> IsSpace(s[k]))
    ensures r == [] || (!IsSpace(r[0]) && !IsSpace(r[|r| - 1]))
    ensures r == [] <==> forall k :: 0 <= k < |s| ==> IsSpace(s[k])
  {
    var i := |s| - |a|;
    PrefixOfSuffixOccurs(s, a, r);
    SpaceBetween(s, a, r);
    assert OccursAt(s, r, i);
    if r != [] {
      assert s[i] == r[0];
    }
  }

  /** A prefix `r` of a suffix `a` of `s`, where `s` has only whitespace
      before `a` and `a` only whitespace after `r`, is `s` between two runs
      of whitespace. */
  lemma SpaceBetween(s: string, a: string, r: string)
    requires |a| <= |s| && a == s[|s| - |a|..] && |r| <= |a| && r == a[..|r|]
    requires forall k :: 0 <= k < |s| - |a| ==> IsSpace(s[k])
    requires forall k :: |r| <= k < |a| ==> IsSpace(a[k])
    ensures var i := |s| - |a|; var j := i + |r|;
      && 0 <= i <= j <= |s| && r == s[i..j]
      && (forall k :: 0 <= k < i ==> IsSpace(s[k]))
      && (forall k :: j <= k < |s| ==> IsSpace(s[k]))
  {
    var i := |s| - |a|;
    SliceOfSuffix(s, i, |r|);
    forall k | i + |r| <= k < |s| ensures IsSpace(s[k]) {
      assert s[k] == a[k - i];
    }
  }

  /** A prefix `r` of a suffix `a` of `s` occurs in `s` where `a` starts, and
      starts with `a`'s first character. */
  lemma PrefixOfSuffixOccurs(s: string, a: string, r: string)
    requires |a| <= |s| && a == s[|s| - |a|..] && |r| <= |a| && r == a[..|r|]
    ensures OccursAt(s, r, |s| - |a|)
    ensures r != [] ==> r[0] == a[0]
  {
    SliceOfSuffix(s, |s| - |a|, |r|);
  }
}
