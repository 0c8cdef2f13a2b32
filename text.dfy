/**
 * Strings as sequences of characters: substring search (Swift's
 * `String.contains`), removal of spaces (`replacingOccurrences(of: " ", with: "")`)
 * and concatenation of a list of strings (`[String].joined()`).
 */
module Text {

  predicate IsPrefix(pre: string, s: string) {
    |pre| <= |s| && s[..|pre|] == pre
  }

  /** `sub` occurs somewhere in `s`, at some offset. */
  predicate Contains(s: string, sub: string)
    decreases |s|
  {
    IsPrefix(sub, s) || (|s| > 0 && Contains(s[1..], sub))
  }

  /** A string never holds a longer string. */
  lemma {:induction false} ContainsNeedsLength(s: string, sub: string)
    requires Contains(s, sub)
    ensures |sub| <= |s|
    decreases |s|
  {
    if !IsPrefix(sub, s) {
      ContainsNeedsLength(s[1..], sub);
    }
  }

  /** `Contains` as an occurrence at an explicit offset. */
  lemma {:induction false} ContainsAt(s: string, sub: string, i: nat)
    requires i + |sub| <= |s| && s[i..i + |sub|] == sub
    ensures Contains(s, sub)
    decreases i
  {
    if i > 0 {
      assert s[1..][i - 1..i - 1 + |sub|] == s[i..i + |sub|];
      ContainsAt(s[1..], sub, i - 1);
    } else {
      assert s[..|sub|] == sub;
    }
  }

  /** `Contains` gives an explicit offset of the occurrence. */
  lemma {:induction false} ContainsOffset(s: string, sub: string) returns (i: nat)
    requires Contains(s, sub)
    ensures i + |sub| <= |s| && s[i..i + |sub|] == sub
    decreases |s|
  {
    if IsPrefix(sub, s) {
      i := 0;
    } else {
      var j := ContainsOffset(s[1..], sub);
      assert s[1..][j..j + |sub|] == s[j + 1..j + 1 + |sub|];
      i := j + 1;
    }
  }

  /** `sub` occurs in `s` at offset `i`. */
  predicate OccursAt(s: string, sub: string, i: nat) {
    i + |sub| <= |s| && s[i..i + |sub|] == sub
  }

  /** No occurrence at any offset means `sub` is not contained. */
  lemma NotContains(s: string, sub: string)
    requires forall i: nat :: !OccursAt(s, sub, i)
    ensures !Contains(s, sub)
  {
    if Contains(s, sub) {
      var i := ContainsOffset(s, sub);
      assert OccursAt(s, sub, i);
    }
  }

  lemma PrefixOfConcat(a: string, b: string)
    ensures IsPrefix(a, a + b)
  {
    assert (a + b)[..|a|] == a;
  }

  /** Text put before or after a string keeps every occurrence in it. */
  lemma {:induction false} ContainsExtend(a: string, s: string, b: string, sub: string)
    requires Contains(s, sub)
    ensures Contains(a + s + b, sub)
    decreases |s|
  {
    if IsPrefix(sub, s) {
      assert (a + s + b)[|a|..|a| + |sub|] == s[..|sub|];
      ContainsAt(a + s + b, sub, |a|);
    } else {
      ContainsExtend(a + [s[0]], s[1..], b, sub);
      assert a + [s[0]] + s[1..] + b == a + s + b;
    }
  }

  /** The string with every space character ' ' removed. */
  function StripSpaces(s: string): (r: string)
    ensures ' ' !in r
    ensures |r| <= |s|
    ensures forall c :: c in r ==> c in s
  {
    if s == [] then []
    else if s[0] == ' ' then StripSpaces(s[1..])
    else [s[0]] + StripSpaces(s[1..])
  }

  lemma {:induction false} StripSpacesAppend(a: string, b: string)
    ensures StripSpaces(a + b) == StripSpaces(a) + StripSpaces(b)
    decreases |a|
  {
    if a == [] {
      assert a + b == b;
    } else {
      assert (a + b)[1..] == a[1..] + b;
      StripSpacesAppend(a[1..], b);
    }
  }

  lemma Regroup(a: string, b: string, c: string, d: string)
    ensures (a + b) + (c + d) == a + (b + c) + d
  {
  }

  lemma RegroupAroundSpace(a: string, b: string, c: string, d: string)
    ensures a + b + " " + c + d == (a + b) + " " + (c + d)
  {
  }

  /** A space between two strings disappears and the two sides are stripped on their own. */
  lemma StripAroundSpace(a: string, b: string)
    ensures StripSpaces(a + " " + b) == StripSpaces(a) + StripSpaces(b)
  {
    StripSpacesAppend(a + " ", b);
    StripSpacesAppend(a, " ");
    assert StripSpaces(" ") == [];
  }

  /** A string without spaces is left as it is: stripping twice is stripping once. */
  lemma {:induction false} StripSpacesKeepsSpaceFree(s: string)
    requires ' ' !in s
    ensures StripSpaces(s) == s
    decreases |s|
  {
    if s != [] {
      StripSpacesKeepsSpaceFree(s[1..]);
    }
  }

  lemma StripSpacesIdempotent(s: string)
    ensures StripSpaces(StripSpaces(s)) == StripSpaces(s)
  {
    StripSpacesKeepsSpaceFree(StripSpaces(s));
  }

  /** Concatenation of a list of strings in order, with no separator. */
  function Joined(parts: seq<string>): string
    decreases |parts|
  {
    if parts == [] then "" else Joined(parts[..|parts| - 1]) + parts[|parts| - 1]
  }

  lemma JoinedSnoc(parts: seq<string>, last: string)
    ensures Joined(parts + [last]) == Joined(parts) + last
  {
    assert (parts + [last])[..|parts|] == parts;
  }
}
