/** Substrings, as Python's `in`, `find` and `split` and JavaScript's `indexOf` see them. */
module Text {

  predicate OccursAt(s: string, part: string, i: int) {
    0 <= i <= |s| - |part| && s[i..i + |part|] == part
  }

  predicate Contains(s: string, part: string) {
    exists i :: 0 <= i <= |s| && OccursAt(s, part, i)
  }

  /** The first occurrence of `part` at or after position `i`, or -1. */
  function FindFrom(s: string, part: string, i: nat): (r: int)
    ensures r == -1 || (i <= r && OccursAt(s, part, r))
    ensures forall j :: i <= j && (r == -1 || j < r) ==> !OccursAt(s, part, j)
    decreases |s| - i
  {
    if i + |part| > |s| then -1
    else if s[i..i + |part|] == part then i
    else FindFrom(s, part, i + 1)
  }

  function Find(s: string, part: string): (r: int)
    ensures r == -1 <==> !Contains(s, part)
    ensures r != -1 ==> OccursAt(s, part, r) && forall j :: 0 <= j < r ==> !OccursAt(s, part, j)
  {
    FindFrom(s, part, 0)
  }

  /** `s.split(mark)[0]`: what precedes the first mark. */
  function Before(s: string, mark: string): string {
    if Find(s, mark) == -1 then s else s[..Find(s, mark)]
  }

  /** One different character rules out an occurrence. */
  lemma DiffersAt(s: string, m: string, i: nat, k: nat)
    requires k < |m| && i + k < |s| && s[i + k] != m[k]
    ensures !OccursAt(s, m, i)
  {
    if i + |m| <= |s| {
      assert s[i..i + |m|][k] == s[i + k];
    }
  }
}
