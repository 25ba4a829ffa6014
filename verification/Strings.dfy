/** Byte strings: concatenation of a list of strings and the search for CRLF.
    A byte is modelled as a `char`, a std::string or a byte range as a `string`. */
module Strings {

  datatype Option<+T> = None | Some(value: T)

  /** The concatenation of a list of strings, in order. */
  function Flatten(ss: seq<string>): string {
    if ss == [] then "" else ss[0] + Flatten(ss[1..])
  }

  lemma {:induction false} FlattenAppend(ss: seq<string>, tt: seq<string>)
    ensures Flatten(ss + tt) == Flatten(ss) + Flatten(tt)
  {
    if ss == [] {
      assert ss + tt == tt;
    } else {
      assert (ss + tt)[1..] == ss[1..] + tt;
      FlattenAppend(ss[1..], tt);
    }
  }

  lemma FlattenSnoc(ss: seq<string>, s: string)
    ensures Flatten(ss + [s]) == Flatten(ss) + s
  {
    FlattenAppend(ss, [s]);
    assert Flatten([s]) == s + Flatten([]);
  }

  /** A CRLF pair starts at position k of s. */
  predicate CRLFAt(s: string, k: int) {
    0 <= k && k + 1 < |s| && s[k] == '\r' && s[k + 1] == '\n'
  }

  ghost predicate NoCRLF(s: string) {
    forall k :: !CRLFAt(s, k)
  }

  /** What std::search finds for "\r\n": the first position where the pair occurs. */
  function FirstCRLF(s: string): (r: Option<nat>)
    ensures r.None? ==> NoCRLF(s)
    ensures r.Some? ==> CRLFAt(s, r.value) && forall k :: k < r.value ==> !CRLFAt(s, k)
  {
    if |s| < 2 then None
    else if CRLFAt(s, 0) then Some(0)
    else
      var rest := s[1..];
      assert forall k :: CRLFAt(s, k) ==> k == 0 || CRLFAt(rest, k - 1);
      match FirstCRLF(rest)
      case None => None
      case Some(k) =>
        assert forall j :: CRLFAt(s, j) && j < k + 1 ==> CRLFAt(rest, j - 1);
        Some(k + 1)
  }

  lemma FirstCRLFUnique(s: string, k: nat)
    requires CRLFAt(s, k)
    requires forall j :: j < k ==> !CRLFAt(s, j)
    ensures FirstCRLF(s) == Some(k)
  {
    var r := FirstCRLF(s);
    assert r.Some? && r.value <= k;
  }

  /** The first pair does not move when more bytes arrive behind it. */
  lemma FirstCRLFMore(s: string, more: string)
    requires FirstCRLF(s).Some?
    ensures FirstCRLF(s + more) == FirstCRLF(s)
  {
    var k := FirstCRLF(s).value;
    assert forall j :: j < k ==> CRLFAt(s + more, j) ==> CRLFAt(s, j);
    FirstCRLFUnique(s + more, k);
  }

  /** A terminated line without an inner CRLF is found whole, whatever follows it
      (also when its last byte is a carriage return). */
  lemma LineFound(line: string, rest: string)
    requires NoCRLF(line)
    ensures FirstCRLF(line + "\r\n" + rest) == Some(|line|)
  {
    var s := line + "\r\n" + rest;
    assert CRLFAt(s, |line|);
    forall j | j < |line| ensures !CRLFAt(s, j) {
      assert j + 1 < |line| && CRLFAt(s, j) ==> CRLFAt(line, j);
      assert j + 1 == |line| ==> s[j + 1] == '\r';
    }
    FirstCRLFUnique(s, |line|);
  }

  /** Re-bracketing, stated once so that proofs need not rediscover it. */
  lemma Regroup(a: string, b: string, c: string, d: string)
    ensures a + b + c + d == a + (b + c + d)
  {
  }

  lemma Regroup5(a: string, b: string, c: string, d: string, e: string)
    ensures a + b + c + d + e == a + (b + c + d + e)
  {
  }

  lemma Regroup3(a: string, b: string, c: string)
    ensures a + b + c == a + (b + c)
  {
  }

  lemma RegroupTail(a: string, b: string, c: string, d: string, e: string)
    ensures a + b + c + d + e == a + b + c + (d + e)
  {
  }
}
