/**
 * `Array.prototype.join` with a one-character separator, and
 * `String.prototype.split` on the same character, which the model uses to
 * state what a reader of the joined text gets back: the parts themselves,
 * as long as none of them contains the separator.
 */
module Text {

  /**
   * `parts.join(sep)`: no separator before the first part or after the last,
   * and no character that is neither the separator nor from some part.
   */
  function Join(parts: seq<string>, sep: char): (s: string)
    ensures parts == [] ==> s == ""
    ensures forall c :: c in s ==> c == sep || exists k :: 0 <= k < |parts| && c in parts[k]
  {
    if parts == [] then ""
    else if |parts| == 1 then parts[0]
    else parts[0] + [sep] + Join(parts[1..], sep)
  }

  /** The index of the first `c` in `s`, or `|s|` when there is none. */
  function IndexOf(s: string, c: char): (i: nat)
    ensures i <= |s|
    ensures i < |s| ==> s[i] == c
    ensures forall j :: 0 <= j < i ==> s[j] != c
  {
    if s == [] then 0 else if s[0] == c then 0 else 1 + IndexOf(s[1..], c)
  }

  /** `s.split(sep)`: the pieces between separators; the empty string is one empty piece. */
  function Split(s: string, sep: char): (parts: seq<string>)
    ensures |parts| >= 1
    decreases |s|
  {
    var i := IndexOf(s, sep);
    if i == |s| then [s] else [s[..i]] + Split(s[i + 1..], sep)
  }

  /** No part contains `c`. */
  predicate Free(parts: seq<string>, c: char) {
    forall k :: 0 <= k < |parts| ==> c !in parts[k]
  }

  /** Splitting at the separator gives back the parts, as long as none of them contains it. */
  lemma {:induction false} SplitJoin(parts: seq<string>, sep: char)
    requires |parts| >= 1 && Free(parts, sep)
    ensures Split(Join(parts, sep), sep) == parts
  {
    var s := Join(parts, sep);
    if |parts| == 1 {
      assert sep !in parts[0];
      assert IndexOf(s, sep) == |s|;
    } else {
      var head := parts[0];
      var rest := Join(parts[1..], sep);
      assert s == head + [sep] + rest;
      assert sep !in head;
      assert IndexOf(s, sep) == |head| by {
        assert s[|head|] == sep;
        assert forall j :: 0 <= j < |head| ==> s[j] == head[j];
      }
      assert s[..|head|] == head;
      assert s[|head| + 1..] == rest;
      SplitJoin(parts[1..], sep);
    }
  }

  /** SplitJoin for every input, as an implication, for use inside expressions. */
  lemma SplitJoinWhenFree(parts: seq<string>, sep: char)
    ensures |parts| >= 1 && Free(parts, sep) ==> Split(Join(parts, sep), sep) == parts
  {
    if |parts| >= 1 && Free(parts, sep) {
      SplitJoin(parts, sep);
    }
  }
}
