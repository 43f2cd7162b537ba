/** String helpers used by the project filter: ASCII lower-casing and
    substring search with the semantics of JavaScript's `String.prototype.includes`. */
module Text {

  predicate IsUpper(c: char) {
    'A' <= c <= 'Z'
  }

  /** Lower-cases one ASCII letter; every other character is returned as it is. */
  function LowerChar(c: char): char {
    if IsUpper(c) then (c as int + 32) as char else c
  }

  /** `toLowerCase`, restricted to ASCII letters. */
  function Lower(s: string): (r: string)
    ensures |r| == |s|
    ensures forall i :: 0 <= i < |s| ==> IsUpper(s[i]) ==> r[i] as int == s[i] as int + ('a' as int - 'A' as int)
    ensures forall i :: 0 <= i < |s| ==> !IsUpper(s[i]) ==> r[i] == s[i]
    ensures forall i :: 0 <= i < |r| ==> !IsUpper(r[i])
  {
    seq(|s|, i requires 0 <= i < |s| => LowerChar(s[i]))
  }

  /** Lower-casing twice is lower-casing once. */
  lemma LowerIdempotent(s: string)
    ensures Lower(Lower(s)) == Lower(s)
  {
    var l := Lower(s);
    assert forall i :: 0 <= i < |l| ==> LowerChar(l[i]) == l[i];
  }

  /** `t` sits in `s` starting at position `i`. */
  ghost predicate OccursAt(s: string, t: string, i: int) {
    0 <= i && i + |t| <= |s| && s[i..i + |t|] == t
  }

  /** `s.includes(t)`: the empty string is included in every string. */
  function Includes(s: string, t: string): (r: bool)
    ensures r <==> exists i :: OccursAt(s, t, i)
    decreases |s|
  {
    if |t| > |s| then
      NoOccurrenceWhenLonger(s, t);
      false
    else if s[..|t|] == t then
      assert OccursAt(s, t, 0);
      true
    else
      OccurrenceInTail(s, t);
      Includes(s[1..], t)
  }

  lemma NoOccurrenceWhenLonger(s: string, t: string)
    requires |t| > |s|
    ensures !exists i :: OccursAt(s, t, i)
  {
  }

  /** When `t` is not a prefix of `s`, it occurs in `s` exactly when it occurs in `s[1..]`. */
  lemma OccurrenceInTail(s: string, t: string)
    requires |t| <= |s| && s[..|t|] != t
    ensures (exists i :: OccursAt(s, t, i)) <==> (exists i :: OccursAt(s[1..], t, i))
  {
    if exists i :: OccursAt(s, t, i) {
      var i :| OccursAt(s, t, i);
      assert i != 0;
      assert s[1..][i - 1..i - 1 + |t|] == s[i..i + |t|];
      assert OccursAt(s[1..], t, i - 1);
    }
    if exists i :: OccursAt(s[1..], t, i) {
      var i :| OccursAt(s[1..], t, i);
      assert s[1..][i..i + |t|] == s[i + 1..i + 1 + |t|];
      assert OccursAt(s, t, i + 1);
    }
  }
}
