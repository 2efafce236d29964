/** The Python string operations the bots rely on, on `seq<char>`:
    `str.endswith`, the `in` substring test, `sep.join(parts)`, and a
    one-character `str.split` used as the inverse of `join`. */
module Strings {

  /** Python's `s.endswith(suffix)`: an exact, case-sensitive suffix match. */
  predicate EndsWith(s: string, suffix: string) {
    |suffix| <= |s| && s[|s| - |suffix|..] == suffix
  }

  /** `s` with the suffix appended ends with that suffix. */
  lemma EndsWithAppended(stem: string, suffix: string)
    ensures EndsWith(stem + suffix, suffix)
  {
    assert (stem + suffix)[|stem|..] == suffix;
  }

  /** `sub` occurs in `s` starting at offset `i`. */
  predicate OccursAt(sub: string, s: string, i: nat) {
    i + |sub| <= |s| && s[i..i + |sub|] == sub
  }

  /** The meaning of Python's `sub in s`: `sub` occurs at some offset of `s`. */
  ghost predicate IsSubstring(sub: string, s: string) {
    exists i: nat :: OccursAt(sub, s, i)
  }

  /** Python's `sub in s`, computed by trying every offset from the left. */
  function Contains(s: string, sub: string): bool
    decreases |s|
  {
    if |sub| > |s| then false
    else s[..|sub|] == sub || Contains(s[1..], sub)
  }

  /** `Contains` is exactly the substring relation, in both directions. */
  lemma {:induction false} ContainsIsSubstring(s: string, sub: string)
    ensures Contains(s, sub) <==> IsSubstring(sub, s)
    decreases |s|
  {
    if |sub| > |s| {
    } else if s[..|sub|] == sub {
      assert OccursAt(sub, s, 0);
    } else {
      ContainsIsSubstring(s[1..], sub);
      if Contains(s[1..], sub) {
        var i: nat :| OccursAt(sub, s[1..], i);
        assert s[i + 1..i + 1 + |sub|] == s[1..][i..i + |sub|];
        assert OccursAt(sub, s, i + 1);
      }
      if IsSubstring(sub, s) {
        var i: nat :| OccursAt(sub, s, i);
        assert i != 0;
        assert s[1..][i - 1..i - 1 + |sub|] == s[i..i + |sub|];
        assert OccursAt(sub, s[1..], i - 1);
      }
    }
  }

  /** Python's `sep.join(parts)`. */
  function Join(sep: string, parts: seq<string>): string
  {
    if |parts| == 0 then ""
    else if |parts| == 1 then parts[0]
    else parts[0] + sep + Join(sep, parts[1..])
  }

  /** Where part `k` starts in `Join(sep, parts)`: the lengths of the parts
      before it, each followed by a separator. */
  function PartOffset(sep: string, parts: seq<string>, k: nat): nat
    requires k < |parts|
  {
    if k == 0 then 0 else |parts[0]| + |sep| + PartOffset(sep, parts[1..], k - 1)
  }

  /** `text` is made of `parts` in order, one separator between each two
      consecutive parts, and nothing else. */
  ghost predicate JoinedLayout(sep: string, parts: seq<string>, text: string)
  {
    (|parts| == 0 ==> text == "") &&
    (forall k :: 0 <= k < |parts| ==> OccursAt(parts[k], text, PartOffset(sep, parts, k))) &&
    (forall k :: 0 <= k < |parts| - 1 ==> OccursAt(sep, text, PartOffset(sep, parts, k) + |parts[k]|)) &&
    (|parts| > 0 ==> |text| == PartOffset(sep, parts, |parts| - 1) + |parts[|parts| - 1]|)
  }

  /** Part `k` stands at its offset in the join. */
  lemma {:induction false} JoinPartAt(sep: string, parts: seq<string>, k: nat)
    requires k < |parts|
    ensures OccursAt(parts[k], Join(sep, parts), PartOffset(sep, parts, k))
    decreases k
  {
    var text := Join(sep, parts);
    if k == 0 {
      assert text[0..|parts[0]|] == parts[0];
    } else {
      var rest := Join(sep, parts[1..]);
      var o := PartOffset(sep, parts[1..], k - 1);
      var shift := |parts[0]| + |sep|;
      assert parts[1..][k - 1] == parts[k];
      assert PartOffset(sep, parts, k) == shift + o;
      JoinPartAt(sep, parts[1..], k - 1);
      assert text == parts[0] + sep + rest;
      assert text[shift + o..shift + o + |parts[k]|] == rest[o..o + |parts[k]|];
    }
  }

  /** A separator follows every part but the last. */
  lemma {:induction false} JoinSepAt(sep: string, parts: seq<string>, k: nat)
    requires k + 1 < |parts|
    ensures OccursAt(sep, Join(sep, parts), PartOffset(sep, parts, k) + |parts[k]|)
    decreases k
  {
    var text := Join(sep, parts);
    var rest := Join(sep, parts[1..]);
    assert text == parts[0] + sep + rest;
    if k == 0 {
      assert text[|parts[0]|..|parts[0]| + |sep|] == sep;
    } else {
      var shift := |parts[0]| + |sep|;
      assert parts[1..][k - 1] == parts[k];
      var o := PartOffset(sep, parts[1..], k - 1) + |parts[k]|;
      assert PartOffset(sep, parts, k) + |parts[k]| == shift + o;
      JoinSepAt(sep, parts[1..], k - 1);
      assert rest[o..o + |sep|] == sep;
      assert text[shift + o..shift + o + |sep|] == rest[o..o + |sep|];
    }
  }

  /** The join ends where its last part ends. */
  lemma {:induction false} JoinLength(sep: string, parts: seq<string>)
    requires |parts| > 0
    ensures |Join(sep, parts)| == PartOffset(sep, parts, |parts| - 1) + |parts[|parts| - 1]|
    decreases |parts|
  {
    if |parts| > 1 {
      JoinLength(sep, parts[1..]);
    }
  }

  /** `sep.join(parts)` lays the parts out in order with one separator between
      neighbours, for any parts, even ones that contain the separator. */
  lemma JoinLayout(sep: string, parts: seq<string>)
    ensures JoinedLayout(sep, parts, Join(sep, parts))
  {
    forall k | 0 <= k < |parts|
      ensures OccursAt(parts[k], Join(sep, parts), PartOffset(sep, parts, k))
    {
      JoinPartAt(sep, parts, k);
    }
    forall k | 0 <= k < |parts| - 1
      ensures OccursAt(sep, Join(sep, parts), PartOffset(sep, parts, k) + |parts[k]|)
    {
      JoinSepAt(sep, parts, k);
    }
    if |parts| > 0 {
      JoinLength(sep, parts);
    }
  }

  /** Python's `s.split(c)` for a one-character separator: the pieces between
      the occurrences of `c`, always at least one. */
  function Split(s: string, c: char): (r: seq<string>)
    ensures |r| >= 1
    decreases |s|
  {
    if |s| == 0 then [""]
    else
      var rest := Split(s[1..], c);
      if s[0] == c then [""] + rest else [[s[0]] + rest[0]] + rest[1..]
  }

  /** A string without the separator splits into itself alone. */
  lemma {:induction false} SplitWithout(s: string, c: char)
    requires c !in s
    ensures Split(s, c) == [s]
    decreases |s|
  {
    if |s| > 0 {
      SplitWithout(s[1..], c);
      assert [s[0]] + s[1..] == s;
    }
  }

  /** The piece before the first separator comes off the front of the split. */
  lemma {:induction false} SplitAfterPiece(piece: string, c: char, rest: string)
    requires c !in piece
    ensures Split(piece + [c] + rest, c) == [piece] + Split(rest, c)
    decreases |piece|
  {
    var s := piece + [c] + rest;
    if |piece| == 0 {
      assert s[1..] == rest;
    } else {
      assert s[1..] == piece[1..] + [c] + rest;
      SplitAfterPiece(piece[1..], c, rest);
      assert [piece[0]] + piece[1..] == piece;
    }
  }

  /** Splitting inverts joining with a one-character separator that occurs in
      none of the parts: the parts come back, in order and unchanged. */
  lemma {:induction false} SplitJoin(parts: seq<string>, c: char)
    requires |parts| >= 1
    requires forall p :: p in parts ==> c !in p
    ensures Split(Join([c], parts), c) == parts
    decreases |parts|
  {
    if |parts| == 1 {
      SplitWithout(parts[0], c);
    } else {
      assert parts[0] in parts;
      assert forall p :: p in parts[1..] ==> p in parts;
      SplitJoin(parts[1..], c);
      SplitAfterPiece(parts[0], c, Join([c], parts[1..]));
      assert [parts[0]] + parts[1..] == parts;
    }
  }

  /** A character found neither in the separator nor in any part is not in
      their join. */
  lemma {:induction false} JoinAvoids(sep: string, parts: seq<string>, c: char)
    requires c !in sep
    requires forall p :: p in parts ==> c !in p
    ensures c !in Join(sep, parts)
    decreases |parts|
  {
    if |parts| > 1 {
      assert parts[0] in parts;
      assert forall p :: p in parts[1..] ==> p in parts;
      JoinAvoids(sep, parts[1..], c);
    } else if |parts| == 1 {
      assert parts[0] in parts;
    }
  }
}
