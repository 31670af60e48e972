/**
 * Case-insensitive substring search as the post filter uses it
 * (`toLowerCase` then `includes`), with case folding restricted to ASCII.
 */
module Text {

  function LowerChar(c: char): (r: char)
    ensures 'A' <= c <= 'Z' ==> 'a' <= r <= 'z' && r as int - c as int == 32
    ensures !('A' <= c <= 'Z') ==> r == c
  {
    if 'A' <= c <= 'Z' then (c as int + 32) as char else c
  }

  /** `String.prototype.toLowerCase` on ASCII letters; other characters are kept. */
  function Lower(s: string): (r: string)
    ensures |r| == |s|
    ensures forall i :: 0 <= i < |s| ==> r[i] == LowerChar(s[i])
  {
    if s == [] then [] else [LowerChar(s[0])] + Lower(s[1..])
  }

  /** `n` occurs in `h` starting at position `i`. */
  predicate OccursAt(h: string, n: string, i: int) {
    0 <= i && i + |n| <= |h| && h[i..i + |n|] == n
  }

  /** `String.prototype.includes`: `n` is a prefix of `h` or of one of its tails. */
  predicate Contains(h: string, n: string)
    ensures n == [] ==> Contains(h, n)
    ensures Contains(h, n) ==> |n| <= |h|
    decreases |h|
  {
    n <= h || (h != [] && Contains(h[1..], n))
  }

  /** An occurrence past the first position is an occurrence in the tail, one position earlier. */
  lemma OccursInTail(h: string, n: string, i: int)
    requires h != [] && 0 < i
    ensures OccursAt(h, n, i) <==> OccursAt(h[1..], n, i - 1)
  {
    if i + |n| <= |h| {
      assert h[1..][i - 1..i - 1 + |n|] == h[i..i + |n|];
    }
  }

  /** `Contains` finds exactly the positions where `n` occurs. */
  lemma {:induction false} ContainsMeansOccurs(h: string, n: string)
    ensures Contains(h, n) <==> exists i :: OccursAt(h, n, i)
    decreases |h|
  {
    if n <= h {
      assert OccursAt(h, n, 0);
    } else if h != [] {
      ContainsMeansOccurs(h[1..], n);
      if exists i :: OccursAt(h, n, i) {
        var i :| OccursAt(h, n, i);
        OccursInTail(h, n, i);
      }
      if exists i :: OccursAt(h[1..], n, i) {
        var i :| OccursAt(h[1..], n, i);
        OccursInTail(h, n, i + 1);
      }
    } else {
      assert forall i :: !OccursAt(h, n, i);
    }
  }

  /** An occurrence of `n` brings every character of `n` into `h`. */
  lemma OccurrenceBringsCharacters(h: string, n: string, i: int)
    ensures OccursAt(h, n, i) ==> forall c :: c in n ==> c in h
  {
    if OccursAt(h, n, i) {
      forall c | c in n
        ensures c in h
      {
        var k :| 0 <= k < |n| && n[k] == c;
        assert h[i + k] == n[k];
      }
    }
  }

  /** A string lacking one of `n`'s characters does not contain `n`. */
  lemma MissingCharacterRulesOut(h: string, n: string, c: char)
    requires c in n && c !in h
    ensures !Contains(h, n)
  {
    ContainsMeansOccurs(h, n);
    forall i
      ensures !OccursAt(h, n, i)
    {
      OccurrenceBringsCharacters(h, n, i);
    }
  }

  /** Lower-casing cannot produce a letter whose two cases are both absent. */
  lemma LowerLacksLetter(s: string, c: char)
    requires 'a' <= c <= 'z' && c !in s && (c as int - 32) as char !in s
    ensures c !in Lower(s)
  {
    var l := Lower(s);
    forall i | 0 <= i < |l|
      ensures l[i] != c
    {
      assert l[i] == LowerChar(s[i]);
    }
  }

  /** `h.toLowerCase().includes(n.toLowerCase())`. */
  predicate ContainsIgnoringCase(h: string, n: string) {
    Contains(Lower(h), Lower(n))
  }
}
