/**
 * First and last occurrence searches over sequences. The command-line scan
 * and the extension search are specified with these: "the first bare word",
 * "the last hardware flag", "the first matching extension".
 */
module Seqs {

  /** Index of the first element satisfying `p`, or `|s|` when there is none. */
  function FindFirst<T>(s: seq<T>, p: T -> bool): (k: nat)
    ensures k <= |s|
    ensures forall j :: 0 <= j < k ==> !p(s[j])
    ensures k < |s| ==> p(s[k])
  {
    if s == [] then 0
    else if p(s[0]) then 0
    else 1 + FindFirst(s[1..], p)
  }

  /** Index of the last element satisfying `p`, or -1 when there is none. */
  function FindLast<T>(s: seq<T>, p: T -> bool): (k: int)
    ensures -1 <= k < |s|
    ensures forall j :: k < j < |s| ==> !p(s[j])
    ensures 0 <= k ==> p(s[k])
  {
    if s == [] then -1
    else if p(s[|s| - 1]) then |s| - 1
    else FindLast(s[..|s| - 1], p)
  }

  /** The three properties in FindFirst's contract single out its result. */
  lemma FindFirstUnique<T>(s: seq<T>, p: T -> bool, k: nat)
    requires k <= |s|
    requires forall j :: 0 <= j < k ==> !p(s[j])
    requires k < |s| ==> p(s[k])
    ensures FindFirst(s, p) == k
  {
  }

  /** The three properties in FindLast's contract single out its result. */
  lemma FindLastUnique<T>(s: seq<T>, p: T -> bool, k: int)
    requires -1 <= k < |s|
    requires forall j :: k < j < |s| ==> !p(s[j])
    requires 0 <= k ==> p(s[k])
    ensures FindLast(s, p) == k
  {
  }

  /** Searching a concatenation: the first part is searched first. */
  lemma FindFirstAppend<T>(s: seq<T>, t: seq<T>, p: T -> bool)
    ensures FindFirst(s + t, p) ==
      if FindFirst(s, p) < |s| then FindFirst(s, p) else |s| + FindFirst(t, p)
  {
    var k0 := FindFirst(s, p);
    var u := s + t;
    if k0 < |s| {
      assert u[k0] == s[k0];
      forall j | 0 <= j < k0 ensures !p(u[j]) {
        assert u[j] == s[j];
      }
      FindFirstUnique(u, p, k0);
    } else {
      var k1 := FindFirst(t, p);
      forall j | 0 <= j < |s| + k1 ensures !p(u[j]) {
        if j < |s| { assert u[j] == s[j]; } else { assert u[j] == t[j - |s|]; }
      }
      if k1 < |t| { assert u[|s| + k1] == t[k1]; }
      FindFirstUnique(u, p, |s| + k1);
    }
  }

  /** Searching a concatenation from the back: the second part is searched first. */
  lemma FindLastAppend<T>(s: seq<T>, t: seq<T>, p: T -> bool)
    ensures FindLast(s + t, p) ==
      if 0 <= FindLast(t, p) then |s| + FindLast(t, p) else FindLast(s, p)
  {
    var k1 := FindLast(t, p);
    var u := s + t;
    if 0 <= k1 {
      assert u[|s| + k1] == t[k1];
      forall j | |s| + k1 < j < |u| ensures !p(u[j]) {
        assert u[j] == t[j - |s|];
      }
      FindLastUnique(u, p, |s| + k1);
    } else {
      var k0 := FindLast(s, p);
      forall j | k0 < j < |u| ensures !p(u[j]) {
        if j < |s| { assert u[j] == s[j]; } else { assert u[j] == t[j - |s|]; }
      }
      if 0 <= k0 { assert u[k0] == s[k0]; }
      FindLastUnique(u, p, k0);
    }
  }
}
