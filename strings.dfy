/**
 * The few operations on Python `str` that the field-resolution code uses:
 * `c in s`, `s.split(c, 1)` and `s.split(c)`, each for a one-character separator.
 */
module Strings {

  /** Position of the first `c` in `s`, or `|s|` when `s` has none. */
  function IndexOf(s: string, c: char): (i: nat)
    ensures i <= |s|
    ensures i < |s| ==> s[i] == c
    ensures forall k :: 0 <= k < i ==> s[k] != c
  {
    if s == [] then 0
    else if s[0] == c then 0
    else 1 + IndexOf(s[1..], c)
  }

  /** The text before the first `sep` (the whole of `s` when it has none). */
  function Before(s: string, sep: char): string {
    s[..IndexOf(s, sep)]
  }

  /** The text after the first `sep`, later separators kept. */
  function After(s: string, sep: char): string
    requires sep in s
  {
    s[IndexOf(s, sep) + 1..]
  }

  /** `s.split(sep, 1)` on a string that contains `sep` gives two parts that put `s` back together. */
  lemma SplitFirstRoundTrip(s: string, sep: char)
    requires sep in s
    ensures Before(s, sep) + [sep] + After(s, sep) == s
    ensures sep !in Before(s, sep)
  {
    var i := IndexOf(s, sep);
    assert s == s[..i] + [s[i]] + s[i + 1..];
  }

  /** Conversely, gluing a separator-free head to any tail with `sep` is undone by the split. */
  lemma SplitFirstOfJoined(head: string, sep: char, tail: string)
    requires sep !in head
    ensures sep in head + [sep] + tail
    ensures Before(head + [sep] + tail, sep) == head
    ensures After(head + [sep] + tail, sep) == tail
  {
    var s := head + [sep] + tail;
    assert s[|head|] == sep;
  }

  /** Python's `s.split(sep)`: the pieces between separators, always at least one. */
  function Split(s: string, sep: char): (parts: seq<string>)
    ensures |parts| >= 1
    ensures forall k :: 0 <= k < |parts| ==> sep !in parts[k]
    decreases |s|
  {
    if sep in s then
      SplitFirstRoundTrip(s, sep);
      [Before(s, sep)] + Split(After(s, sep), sep)
    else
      [s]
  }

  /** Python's `sep.join(parts)`. */
  function Join(parts: seq<string>, sep: char): string
    requires |parts| >= 1
  {
    if |parts| == 1 then parts[0] else parts[0] + [sep] + Join(parts[1..], sep)
  }

  /** Splitting and joining again gives back the original string. */
  lemma {:induction false} JoinSplit(s: string, sep: char)
    ensures Join(Split(s, sep), sep) == s
    decreases |s|
  {
    if sep in s {
      SplitFirstRoundTrip(s, sep);
      JoinSplit(After(s, sep), sep);
    }
  }

  /** Joining separator-free pieces and splitting again gives back the pieces. */
  lemma {:induction false} SplitJoin(parts: seq<string>, sep: char)
    requires |parts| >= 1
    requires forall k :: 0 <= k < |parts| ==> sep !in parts[k]
    ensures Split(Join(parts, sep), sep) == parts
  {
    if |parts| > 1 {
      SplitFirstOfJoined(parts[0], sep, Join(parts[1..], sep));
      SplitJoin(parts[1..], sep);
    }
  }
}
