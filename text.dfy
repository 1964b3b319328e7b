/** String helpers with the meaning of Python's `str` operations used by the service. */
module Text {

  /** `t` occurs in `s` starting at index `i`. */
  predicate OccursAt(s: string, t: string, i: int)
  {
    0 <= i && i + |t| <= |s| && s[i..i + |t|] == t
  }

  predicate IsPrefix(p: string, s: string)
  {
    |p| <= |s| && s[..|p|] == p
  }

  predicate IsSuffix(p: string, s: string)
  {
    |p| <= |s| && s[|s| - |p|..] == p
  }

  /** Python's `t in s` for strings: `t` occurs somewhere in `s`. */
  predicate Contains(s: string, t: string)
  {
    exists i :: 0 <= i <= |s| - |t| && OccursAt(s, t, i)
  }

  lemma ContainsAt(s: string, t: string, i: int)
    requires OccursAt(s, t, i)
    ensures Contains(s, t)
  {
  }

  /** A character of a contained string is a character of the containing one. */
  lemma ContainsChar(s: string, t: string, c: char)
    requires Contains(s, t) && c in t
    ensures c in s
  {
    var k :| 0 <= k <= |s| - |t| && OccursAt(s, t, k);
    var j :| 0 <= j < |t| && t[j] == c;
    assert s[k..k + |t|][j] == c;
  }

  lemma ContainsSelf(s: string)
    ensures Contains(s, s)
  {
    assert OccursAt(s, s, 0);
  }

  /** Containment is transitive: what occurs in `t` occurs in every `s` that contains `t`. */
  lemma ContainsTrans(s: string, t: string, u: string)
    requires Contains(s, t) && Contains(t, u)
    ensures Contains(s, u)
  {
    var i :| 0 <= i <= |s| - |t| && OccursAt(s, t, i);
    var j :| 0 <= j <= |t| - |u| && OccursAt(t, u, j);
    assert s[i..i + |t|] == t && t[j..j + |u|] == u;
    forall k | 0 <= k < |u|
      ensures s[i + j + k] == u[k]
    {
      assert s[i..i + |t|][j + k] == t[j + k];
      assert t[j..j + |u|][k] == t[j + k];
    }
    assert s[i + j..i + j + |u|] == u;
    ContainsAt(s, u, i + j);
  }

  /** Nothing non-empty occurs in the empty string. */
  lemma NotInEmpty(t: string)
    requires t != []
    ensures !Contains([], t)
  {
  }

  /** A string holding a character that `s` lacks does not occur in `s`. */
  lemma MissingCharNotContained(s: string, t: string, c: char)
    requires c in t && c !in s
    ensures !Contains(s, t)
  {
    if Contains(s, t) {
      ContainsChar(s, t, c);
    }
  }

  /** A string whose first two characters never stand side by side in `s` does not occur in `s`. */
  lemma MissingPairNotContained(s: string, t: string)
    requires |t| >= 2
    requires forall i :: 0 <= i < |s| - 1 ==> s[i] != t[0] || s[i + 1] != t[1]
    ensures !Contains(s, t)
  {
    forall k | 0 <= k <= |s| - |t|
      ensures !OccursAt(s, t, k)
    {
      assert s[k..k + |t|][0] == s[k] && s[k..k + |t|][1] == s[k + 1];
    }
  }

  lemma LowerConcat(a: string, b: string)
    ensures Lower(a + b) == Lower(a) + Lower(b)
  {
  }

  /** Python's `s.find(c)` for a single character. */
  function FindChar(s: string, c: char): (k: int)
    ensures -1 <= k < |s|
    ensures k >= 0 ==> s[k] == c
    ensures forall j :: 0 <= j < |s| && (k < 0 || j < k) ==> s[j] != c
    ensures k < 0 <==> c !in s
    decreases |s|
  {
    if s == [] then -1
    else if s[0] == c then 0
    else
      var k := FindChar(s[1..], c);
      if k < 0 then -1 else k + 1
  }

  /** Python's `s.rfind(c)`: the last index holding `c`, or -1. */
  function RFindChar(s: string, c: char): (k: int)
    ensures -1 <= k < |s|
    ensures k >= 0 ==> s[k] == c
    ensures forall j :: 0 <= j < |s| && k < j ==> s[j] != c
    ensures k < 0 <==> c !in s
    decreases |s|
  {
    if s == [] then -1
    else if s[|s| - 1] == c then |s| - 1
    else RFindChar(s[..|s| - 1], c)
  }

  /** Python's `s.split(c, 1)`: the text before the first `c` and the text after it. */
  function SplitOnce(s: string, c: char): (parts: (string, string))
    requires c in s
    ensures s == parts.0 + [c] + parts.1
    ensures c !in parts.0
  {
    var k := FindChar(s, c);
    assert s == s[..k] + [c] + s[k + 1..];
    (s[..k], s[k + 1..])
  }

  /** ASCII case mapping of Python's `str.lower`. */
  function LowerChar(c: char): char
  {
    if 'A' <= c <= 'Z' then (c as int + 32) as char else c
  }

  function Lower(s: string): (r: string)
    ensures |r| == |s|
    ensures forall i :: 0 <= i < |s| ==> r[i] == LowerChar(s[i])
  {
    seq(|s|, i requires 0 <= i < |s| => LowerChar(s[i]))
  }

  /** Lower-casing twice is lower-casing once. */
  lemma LowerIdempotent(s: string)
    ensures Lower(Lower(s)) == Lower(s)
  {
    assert forall i :: 0 <= i < |s| ==> LowerChar(LowerChar(s[i])) == LowerChar(s[i]);
  }

  /** The characters for which Python's `str.isspace` holds; `\s` in a `str` regex matches these. */
  predicate IsSpace(c: char)
  {
    || '\t' <= c <= '\r'
    || '\U{1C}' <= c <= ' '
    || c == '\U{85}' || c == '\U{A0}' || c == '\U{1680}'
    || '\U{2000}' <= c <= '\U{200A}'
    || c == '\U{2028}' || c == '\U{2029}' || c == '\U{202F}' || c == '\U{205F}' || c == '\U{3000}'
  }

  /** The concatenation of a sequence of strings. */
  function Join(parts: seq<string>): string
  {
    if parts == [] then [] else Join(parts[..|parts| - 1]) + parts[|parts| - 1]
  }

  /** `parts` occur in `s` at the positions `pos`, each one ending before any later one begins. */
  predicate PlacedInOrder(s: string, parts: seq<string>, pos: seq<int>)
  {
    && |pos| == |parts|
    && (forall k :: 0 <= k < |parts| ==> OccursAt(s, parts[k], pos[k]))
    && (forall k, l :: 0 <= k < l < |parts| ==> pos[k] + |parts[k]| <= pos[l])
  }

  /** Every one of `parts` occurs in `s`, in this order and without overlapping. */
  ghost predicate InOrder(s: string, parts: seq<string>)
  {
    exists pos :: PlacedInOrder(s, parts, pos)
  }

  /** The elements of `parts` at the indexes `idx`. */
  function Pick(parts: seq<string>, idx: seq<nat>): (r: seq<string>)
    requires forall k :: 0 <= k < |idx| ==> idx[k] < |parts|
    ensures |r| == |idx|
    ensures forall k :: 0 <= k < |idx| ==> r[k] == parts[idx[k]]
  {
    seq(|idx|, k requires 0 <= k < |idx| => parts[idx[k]])
  }

  lemma JoinAppend(p: seq<string>, q: seq<string>)
    ensures Join(p + q) == Join(p) + Join(q)
    decreases |q|
  {
    if q == [] {
      assert p + q == p;
    } else {
      var n := |q| - 1;
      assert (p + q)[..|p + q| - 1] == p + q[..n];
      JoinAppend(p, q[..n]);
    }
  }

  lemma JoinOne(x: string)
    ensures Join([x]) == x
  {
    assert [x][..0] == [];
  }

  /** A string occurs in `x + t + y` right after `x`. */
  lemma OccursBetween(x: string, t: string, y: string)
    ensures OccursAt(x + t + y, t, |x|)
  {
    assert (x + t + y)[|x|..|x| + |t|] == t;
  }

  /** The concatenation of `parts[i..j]` occurs in the whole concatenation, right after `parts[..i]`. */
  lemma JoinSegment(parts: seq<string>, i: nat, j: nat)
    requires i <= j <= |parts|
    ensures OccursAt(Join(parts), Join(parts[i..j]), |Join(parts[..i])|)
  {
    assert parts == parts[..i] + parts[i..j] + parts[j..];
    JoinAppend(parts[..i] + parts[i..j], parts[j..]);
    JoinAppend(parts[..i], parts[i..j]);
    OccursBetween(Join(parts[..i]), Join(parts[i..j]), Join(parts[j..]));
  }

  /** The concatenation of a longer prefix is at least as long. */
  lemma {:induction false} JoinPrefixGrows(parts: seq<string>, i: nat, j: nat)
    requires i <= j <= |parts|
    ensures |Join(parts[..i])| <= |Join(parts[..j])|
    decreases j - i
  {
    if i < j {
      JoinPrefixGrows(parts, i, j - 1);
      assert parts[..j][..j - 1] == parts[..j - 1];
    }
  }

  /** `parts[j]` occurs in the concatenation right after `parts[..j]`, which it extends. */
  lemma JoinPart(parts: seq<string>, j: nat)
    requires j < |parts|
    ensures OccursAt(Join(parts), parts[j], |Join(parts[..j])|)
    ensures |Join(parts[..j + 1])| == |Join(parts[..j])| + |parts[j]|
  {
    assert parts[j..j + 1] == [parts[j]];
    JoinOne(parts[j]);
    JoinSegment(parts, j, j + 1);
    assert parts[..j + 1][..j] == parts[..j];
  }

  /** Picking strictly increasing indexes of `parts` gives strings that occur in order in its concatenation. */
  /** Each piece occurs in the concatenation. */
  lemma JoinContainsPart(parts: seq<string>, j: nat)
    requires j < |parts|
    ensures Contains(Join(parts), parts[j])
  {
    JoinPart(parts, j);
    ContainsAt(Join(parts), parts[j], |Join(parts[..j])|);
  }

  lemma JoinPickInOrder(parts: seq<string>, idx: seq<nat>)
    requires forall k :: 0 <= k < |idx| ==> idx[k] < |parts|
    requires forall k, l :: 0 <= k < l < |idx| ==> idx[k] < idx[l]
    ensures InOrder(Join(parts), Pick(parts, idx))
  {
    var s := Join(parts);
    var picked := Pick(parts, idx);
    var pos := seq(|idx|, k requires 0 <= k < |idx| => |Join(parts[..idx[k]])|);
    forall k | 0 <= k < |idx|
      ensures OccursAt(s, picked[k], pos[k])
    {
      JoinPart(parts, idx[k]);
    }
    forall k, l | 0 <= k < l < |idx|
      ensures pos[k] + |picked[k]| <= pos[l]
    {
      JoinPart(parts, idx[k]);
      JoinPrefixGrows(parts, idx[k] + 1, idx[l]);
    }
    assert PlacedInOrder(s, picked, pos);
  }

  /** A character in none of the parts is not in their concatenation. */
  lemma {:induction false} CharNotInJoin(parts: seq<string>, c: char)
    requires forall k :: 0 <= k < |parts| ==> c !in parts[k]
    ensures c !in Join(parts)
    decreases |parts|
  {
    if parts != [] {
      CharNotInJoin(parts[..|parts| - 1], c);
    }
  }
}
