/** The few pieces of Go's standard library the controller's logic leans on,
    stated on `seq<char>`: `strings.HasPrefix`, `strings.TrimPrefix`,
    `strings.Index` with a one-character needle, and the
    "range over a slice, return at the first hit" loop idiom. */
module GoLib {

  /** strings.HasPrefix(s, p): s begins with p. */
  predicate HasPrefix(s: string, p: string) {
    |p| <= |s| && s[..|p|] == p
  }

  /** strings.TrimPrefix(s, p): drops one leading p when there is one. */
  function TrimPrefix(s: string, p: string): (r: string)
    ensures HasPrefix(s, p) ==> s == p + r
    ensures !HasPrefix(s, p) ==> r == s
  {
    if HasPrefix(s, p) then s[|p|..] else s
  }

  lemma TrimPrefixOfConcat(p: string, w: string)
    ensures TrimPrefix(p + w, p) == w
  {
    assert (p + w)[..|p|] == p;
  }

  /** strings.Index(s, string(c)): the first position of c, or -1. */
  function Index(s: string, c: char): (r: int)
    ensures -1 <= r < |s|
    ensures r == -1 <==> c !in s
    ensures 0 <= r ==> s[r] == c && c !in s[..r]
  {
    if |s| == 0 then -1
    else if s[0] == c then 0
    else
      var i := Index(s[1..], c);
      if i == -1 then -1 else i + 1
  }

  /** The position of the first element satisfying p, or |s| when there is none:
      the `for _, x := range s { if p(x) { return x } }` idiom. */
  function FirstWhere<T>(s: seq<T>, p: T -> bool): (i: nat)
    ensures i <= |s|
    ensures i < |s| ==> p(s[i])
    ensures forall j :: 0 <= j < i ==> !p(s[j])
  {
    if |s| == 0 then 0
    else if p(s[0]) then 0
    else 1 + FirstWhere(s[1..], p)
  }
}
