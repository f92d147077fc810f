/** String searching as std::string does it, with `|s|` standing for `npos`. */
module Text {

  /** Position of the first `c` in `s`, or `|s|` when there is none. */
  function Find(s: string, c: char): (p: nat)
    ensures p <= |s|
    ensures p < |s| ==> s[p] == c
    ensures c !in s[..p]
  {
    if s == "" || s[0] == c then 0
    else
      var p := 1 + Find(s[1..], c);
      assert s[..p] == [s[0]] + s[1..][..p - 1];
      p
  }

  lemma FindIs(s: string, c: char, p: nat)
    requires p <= |s| && c !in s[..p]
    requires p < |s| ==> s[p] == c
    ensures Find(s, c) == p
  {
  }

  /** A character that is already there stays the first one when text is appended. */
  lemma FindExtend(s: string, t: string, c: char)
    requires Find(s, c) < |s|
    ensures Find(s + t, c) == Find(s, c)
  {
    var p := Find(s, c);
    assert (s + t)[..p] == s[..p];
    FindIs(s + t, c, p);
  }

  lemma FindAfter(a: string, c: char, b: string)
    requires c !in a
    ensures Find(a + [c] + b, c) == |a|
  {
    assert (a + [c] + b)[..|a|] == a;
    FindIs(a + [c] + b, c, |a|);
  }

  lemma Associative(a: string, b: string, c: string)
    ensures a + (b + c) == (a + b) + c
  {}

  function Concat(parts: seq<string>): string {
    if parts == [] then "" else parts[0] + Concat(parts[1..])
  }

  lemma {:induction false} ConcatAppend(a: seq<string>, b: seq<string>)
    ensures Concat(a + b) == Concat(a) + Concat(b)
  {
    if a == [] {
      assert a + b == b;
    } else {
      assert (a + b)[1..] == a[1..] + b;
      ConcatAppend(a[1..], b);
    }
  }

  lemma ConcatSnoc(a: seq<string>, s: string)
    ensures Concat(a + [s]) == Concat(a) + s
  {
    ConcatAppend(a, [s]);
    assert Concat([s]) == s + Concat([]);
  }
}
