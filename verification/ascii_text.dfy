/**
 * The two string operations the catalog filter relies on:
 * `String.prototype.toLowerCase`, restricted to the ASCII letters, and
 * `String.prototype.includes`, the substring test.
 */
module AsciiText {

  /** True for the 26 upper-case ASCII letters. */
  predicate IsUpper(c: char) {
    'A' <= c <= 'Z'
  }

  /** Lower-cases one character: only 'A'..'Z' change, to 'a'..'z'. */
  function LowerChar(c: char): (r: char)
    ensures !IsUpper(r)
    ensures IsUpper(c) ==> r as int == c as int + 32
    ensures !IsUpper(c) ==> r == c
  {
    if IsUpper(c) then (c as int + 32) as char else c
  }

  /** A string with no upper-case ASCII letter in it. */
  predicate IsLowerCase(s: seq<char>) {
    forall i :: 0 <= i < |s| ==> !IsUpper(s[i])
  }

  /** `s.toLowerCase()`, character by character, ASCII letters only. */
  function ToLower(s: seq<char>): (r: seq<char>)
    ensures |r| == |s|
    ensures forall i :: 0 <= i < |s| ==> r[i] == LowerChar(s[i])
    ensures IsLowerCase(r)
  {
    if s == [] then [] else [LowerChar(s[0])] + ToLower(s[1..])
  }

  /** A string that is already lower-case is left as it is. */
  lemma ToLowerFixesLowerCase(s: seq<char>)
    requires IsLowerCase(s)
    ensures ToLower(s) == s
  {
  }

  /** Lower-casing twice is lower-casing once. */
  lemma ToLowerIdempotent(s: seq<char>)
    ensures ToLower(ToLower(s)) == ToLower(s)
  {
  }

  /** `s` equals its own lower-case form exactly when it is lower-case. */
  lemma ToLowerFixedPoint(s: seq<char>)
    ensures ToLower(s) == s <==> IsLowerCase(s)
  {
  }

  /** `t` is a prefix of `s`. */
  predicate IsPrefix(t: seq<char>, s: seq<char>) {
    |t| <= |s| && s[..|t|] == t
  }

  /** `s.includes(t)`: `t` occurs somewhere in `s`, trying each start in turn. */
  function Includes(s: seq<char>, t: seq<char>): (r: bool)
    ensures t == [] ==> r
    ensures r ==> |t| <= |s|
  {
    IsPrefix(t, s) || (s != [] && Includes(s[1..], t))
  }

  /** `t` occurs in `s` starting at position `i`. */
  ghost predicate OccursAt(s: seq<char>, t: seq<char>, i: nat) {
    i + |t| <= |s| && s[i..i + |t|] == t
  }

  /** An occurrence found by `Includes` is an occurrence in the declarative sense. */
  lemma {:induction false} IncludesHasOccurrence(s: seq<char>, t: seq<char>) returns (i: nat)
    requires Includes(s, t)
    ensures OccursAt(s, t, i)
  {
    if IsPrefix(t, s) {
      i := 0;
    } else {
      var j := IncludesHasOccurrence(s[1..], t);
      assert s[1..][j..j + |t|] == s[j + 1..j + 1 + |t|];
      i := j + 1;
    }
  }

  /** Every occurrence in the declarative sense is found by `Includes`. */
  lemma {:induction false} OccurrenceIncluded(s: seq<char>, t: seq<char>, i: nat)
    requires OccursAt(s, t, i)
    ensures Includes(s, t)
  {
    if i == 0 {
      assert IsPrefix(t, s);
    } else {
      assert s[1..][i - 1..i - 1 + |t|] == s[i..i + |t|];
      OccurrenceIncluded(s[1..], t, i - 1);
    }
  }

  /** `Includes` agrees with the declarative definition of a substring. */
  lemma IncludesIffOccurs(s: seq<char>, t: seq<char>)
    ensures Includes(s, t) <==> exists i: nat :: OccursAt(s, t, i)
  {
    if Includes(s, t) {
      var i := IncludesHasOccurrence(s, t);
    }
    forall i: nat | OccursAt(s, t, i) ensures Includes(s, t) {
      OccurrenceIncluded(s, t, i);
    }
  }

  /** Lower-casing commutes with taking a slice. */
  lemma ToLowerSlice(s: seq<char>, i: nat, j: nat)
    requires i <= j <= |s|
    ensures ToLower(s)[i..j] == ToLower(s[i..j])
  {
  }

  /** A case-insensitive match of `t` at position `i` of `s` is a case-insensitive occurrence. */
  lemma IncludesIgnoringCaseAt(s: seq<char>, t: seq<char>, i: nat)
    requires i + |t| <= |s| && ToLower(s[i..i + |t|]) == ToLower(t)
    ensures Includes(ToLower(s), ToLower(t))
  {
    ToLowerSlice(s, i, i + |t|);
    OccurrenceIncluded(ToLower(s), ToLower(t), i);
  }

  /**
   * A term holding a letter that `s` lacks in both cases does not occur in
   * `s`, ignoring case.
   */
  lemma NotIncludedIgnoringCase(s: seq<char>, t: seq<char>, k: nat)
    requires k < |t| && 'a' <= t[k] <= 'z'
    requires t[k] !in s && (t[k] as int - 32) as char !in s
    ensures !Includes(ToLower(s), ToLower(t))
  {
  }
}
