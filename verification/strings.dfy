/** Text helpers shared by the error renderer and the rule tokenizer: joining
    with a separator, splitting at a character (the behaviour of PHP's
    `explode` and Go's `strings.Split` for a one-character separator), and the
    single left-to-right pass of PHP's `str_replace` with an empty replacement. */
module Strings {
  import opened Wrappers

  /** `parts` glued together with `sep` between neighbours (Go's `strings.Join`,
      PHP's `implode`). */
  function Join(parts: seq<string>, sep: string): string
  {
    if |parts| == 0 then ""
    else if |parts| == 1 then parts[0]
    else parts[0] + sep + Join(parts[1..], sep)
  }

  /** Index of the first `c` in `s`. */
  function IndexOf(s: string, c: char): (i: nat)
    requires c in s
    ensures i < |s| && s[i] == c
    ensures c !in s[..i]
  {
    if s[0] == c then 0
    else
      var j := IndexOf(s[1..], c);
      assert s[1..][..j] == s[1..j + 1];
      1 + j
  }

  /** `s` cut at every `c`: always at least one piece, no piece holds `c`, and
      gluing the pieces back with `c` gives `s` again. */
  function Split(s: string, c: char): (parts: seq<string>)
    ensures |parts| >= 1
    ensures forall k :: 0 <= k < |parts| ==> c !in parts[k]
    ensures Join(parts, [c]) == s
    decreases |s|
  {
    if c !in s then [s]
    else
      var i := IndexOf(s, c);
      var rest := Split(s[i + 1..], c);
      assert s == s[..i] + [c] + s[i + 1..];
      [s[..i]] + rest
  }

  /** Splitting undoes joining, provided no piece holds the separator. */
  lemma {:induction false} SplitJoin(parts: seq<string>, c: char)
    requires |parts| >= 1
    requires forall k :: 0 <= k < |parts| ==> c !in parts[k]
    ensures Split(Join(parts, [c]), c) == parts
  {
    if |parts| == 1 {
      assert Join(parts, [c]) == parts[0];
    } else {
      var p := parts[0];
      var tail := Join(parts[1..], [c]);
      var s := p + [c] + tail;
      assert Join(parts, [c]) == s;
      IndexOfPrefix(p, c, tail);
      assert s[..|p|] == p;
      assert s[|p| + 1..] == tail;
      SplitJoin(parts[1..], c);
      assert Split(s, c) == [p] + Split(tail, c);
      assert [p] + parts[1..] == parts;
    }
  }

  /** The first `c` of `p + [c] + t` is the one right after `p` when `p` holds none. */
  lemma IndexOfPrefix(p: string, c: char, t: string)
    requires c !in p
    ensures c in p + [c] + t
    ensures IndexOf(p + [c] + t, c) == |p|
  {
    assert (p + [c] + t)[|p|] == c;
  }

  /** True when `pat` occurs in `s` starting at index `i`. */
  predicate OccursAt(s: string, pat: string, i: nat)
  {
    i + |pat| <= |s| && s[i..i + |pat|] == pat
  }

  /** True when `pat` occurs anywhere in `s`. */
  predicate Contains(s: string, pat: string)
  {
    exists i: nat | i <= |s| :: OccursAt(s, pat, i)
  }

  /** PHP `str_replace(pat, '', s)`: one left-to-right scan deleting every
      non-overlapping match of `pat`; an empty `pat` leaves `s` as it is. */
  function RemoveAll(s: string, pat: string): (r: string)
    ensures |r| <= |s|
    decreases |s|
  {
    if |pat| == 0 || |s| < |pat| then s
    else if s[..|pat|] == pat then RemoveAll(s[|pat|..], pat)
    else [s[0]] + RemoveAll(s[1..], pat)
  }

  /** Removing a pattern that does not occur changes nothing. */
  lemma {:induction false} RemoveAllAbsent(s: string, pat: string)
    requires !Contains(s, pat)
    ensures RemoveAll(s, pat) == s
    decreases |s|
  {
    if |pat| == 0 || |s| < |pat| {
    } else {
      assert !OccursAt(s, pat, 0);
      if Contains(s[1..], pat) {
        var i: nat :| i <= |s[1..]| && OccursAt(s[1..], pat, i);
        assert i + |pat| <= |s| - 1;
        assert s[1..][i..i + |pat|] == s[i + 1..i + 1 + |pat|];
        assert OccursAt(s, pat, i + 1);
        assert false;
      }
      RemoveAllAbsent(s[1..], pat);
      assert [s[0]] + s[1..] == s;
    }
  }

  /** An occurrence in the tail is an occurrence one place later in `s`. */
  lemma OccursShift(s: string, pat: string, j: nat)
    requires |s| > 0
    ensures OccursAt(s[1..], pat, j) <==> OccursAt(s, pat, j + 1)
  {
    if j + |pat| <= |s| - 1 {
      assert s[1..][j..j + |pat|] == s[j + 1..j + 1 + |pat|];
    }
  }

  /** Dropping `k + n` characters from the tail drops `i + n = k + 1 + n`
      from the whole. */
  lemma TailOfTail(s: string, i: nat, k: nat, n: nat)
    requires i == k + 1 && i + n <= |s|
    ensures s[1..][k + n..] == s[i + n..]
  {
  }

  /** Putting the first character back in front of a prefix of the tail gives
      the prefix of the whole. */
  lemma ConsTake(s: string, i: nat, k: nat, y: string, z: string)
    requires i == k + 1 && i <= |s| && y == s[1..][..k] + z
    ensures [s[0]] + y == s[..i] + z
  {
    assert [s[0]] + s[1..][..k] == s[..i];
  }

  /** Where `pat` does not start `s`, the scan keeps the first character. */
  lemma RemoveAllKeep(s: string, pat: string)
    requires 0 < |pat| <= |s| && s[..|pat|] != pat
    ensures RemoveAll(s, pat) == [s[0]] + RemoveAll(s[1..], pat)
  {
  }

  /** Where `pat` first occurs in `s`, scanning left to right, if anywhere. */
  function Find(s: string, pat: string): (r: Option<nat>)
    requires |pat| > 0
    ensures r.Some? ==> OccursAt(s, pat, r.value)
    decreases |s|
  {
    if |s| < |pat| then None
    else if s[..|pat|] == pat then Some(0)
    else
      match Find(s[1..], pat)
      case None => None
      case Some(j) => OccursShift(s, pat, j); Some(j + 1)
  }

  /** `Find` answers "none" exactly when `pat` does not occur. */
  lemma {:induction false} FindNoneIffAbsent(s: string, pat: string)
    requires |pat| > 0
    ensures Find(s, pat).None? <==> !Contains(s, pat)
    decreases |s|
  {
    if |s| < |pat| {
    } else if s[..|pat|] == pat {
      assert OccursAt(s, pat, 0);
    } else {
      FindNoneIffAbsent(s[1..], pat);
      if Contains(s, pat) {
        var i: nat :| i <= |s| && OccursAt(s, pat, i);
        assert s[0..0 + |pat|] == s[..|pat|];
        assert i > 0;
        OccursShift(s, pat, i - 1);
        assert OccursAt(s[1..], pat, i - 1);
      }
      if Contains(s[1..], pat) {
        var i: nat :| i <= |s[1..]| && OccursAt(s[1..], pat, i);
        OccursShift(s, pat, i);
        assert OccursAt(s, pat, i + 1);
      }
    }
  }

  /** No occurrence of `pat` comes before the one `Find` reports. */
  lemma {:induction false} FindIsFirst(s: string, pat: string, j: nat)
    requires |pat| > 0
    requires Find(s, pat).Some? && j < Find(s, pat).value
    ensures !OccursAt(s, pat, j)
    decreases |s|
  {
    assert s[0..0 + |pat|] == s[..|pat|];
    if j > 0 {
      FindIsFirst(s[1..], pat, j - 1);
      OccursShift(s, pat, j - 1);
    }
  }

  /** One step of `RemoveAllAtFirst`: when the scan keeps the first character
      of `s`, the decomposition of the tail at `k` is the decomposition of `s`
      at `k + 1`. */
  lemma KeepFirst(s: string, pat: string, i: nat, k: nat)
    requires i == k + 1 && i + |pat| <= |s|
    requires RemoveAll(s, pat) == [s[0]] + RemoveAll(s[1..], pat)
    requires RemoveAll(s[1..], pat)
             == s[1..][..k] + RemoveAll(s[1..][k + |pat|..], pat)
    ensures RemoveAll(s, pat) == s[..i] + RemoveAll(s[i + |pat|..], pat)
  {
    TailOfTail(s, i, k, |pat|);
    ConsTake(s, i, k, RemoveAll(s[1..], pat), RemoveAll(s[i + |pat|..], pat));
  }

  /** The scan keeps everything before the first occurrence of `pat`, deletes
      that occurrence, and carries on after it. With `RemoveAllAbsent` and
      `FindNoneIffAbsent` for the case of no occurrence, this pins the result
      down on every input. */
  lemma {:induction false} RemoveAllAtFirst(s: string, pat: string, i: nat)
    requires |pat| > 0 && Find(s, pat) == Some(i)
    ensures RemoveAll(s, pat) == s[..i] + RemoveAll(s[i + |pat|..], pat)
    decreases |s|
  {
    if s[..|pat|] == pat {
      assert s[..i] == [];
    } else {
      var t := s[1..];
      var k: nat := i - 1;
      assert Find(t, pat) == Some(k);
      RemoveAllAtFirst(t, pat, k);
      RemoveAllKeep(s, pat);
      KeepFirst(s, pat, i, k);
    }
  }
}
