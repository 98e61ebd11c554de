/** Substring search as JavaScript's String methods indexOf and includes do it. */
module Text {

  predicate OccursAt(s: string, sub: string, i: int) {
    0 <= i <= |s| - |sub| && s[i..i + |sub|] == sub
  }

  /** s.indexOf(sub, from): the first occurrence at or after from, -1 when there is none. */
  function IndexOf(s: string, sub: string, from: nat): (r: int)
    ensures r == -1 || (from <= r && OccursAt(s, sub, r))
    ensures forall i | from <= i && OccursAt(s, sub, i) :: 0 <= r <= i
    decreases |s| - from
  {
    if from + |sub| > |s| then -1
    else if s[from..from + |sub|] == sub then from
    else IndexOf(s, sub, from + 1)
  }

  /** s.includes(sub) */
  predicate Includes(s: string, sub: string) {
    IndexOf(s, sub, 0) != -1
  }

  /** s.startsWith(sub) */
  predicate StartsWith(s: string, sub: string) {
    OccursAt(s, sub, 0)
  }

  lemma {:induction false} OccursChar(s: string, sub: string, i: int, k: nat)
    requires OccursAt(s, sub, i) && k < |sub|
    ensures s[i + k] == sub[k]
  {
    assert s[i..i + |sub|][k] == s[i + k];
  }

  /** An occurrence in a slice is one in the whole. */
  lemma {:induction false} OccursInSlice(s: string, a: nat, b: nat, sub: string, i: int)
    requires a <= b <= |s| && a <= i && i + |sub| <= b
    ensures OccursAt(s[a..b], sub, i - a) <==> OccursAt(s, sub, i)
  {
    assert s == s[..a] + s[a..b] + s[b..];
    OccursWithin(s[..a], s[a..b], s[b..], sub, i - a);
  }

  lemma {:induction false} OccursWithin(a: string, b: string, c: string, sub: string, i: int)
    requires 0 <= i && i + |sub| <= |b|
    ensures OccursAt(a + b + c, sub, |a| + i) <==> OccursAt(b, sub, i)
  {
    assert (a + b + c)[|a| + i..|a| + i + |sub|] == b[i..i + |sub|];
  }

  /** The first occurrence is one that has none before it. */
  lemma {:induction false} FirstIs(s: string, sub: string, from: nat, i: nat)
    requires from <= i && OccursAt(s, sub, i)
    requires forall k | from <= k < i :: !OccursAt(s, sub, k)
    ensures IndexOf(s, sub, from) == i
  {
  }

  /** A character a word does not have keeps two texts apart. */
  lemma {:induction false} IncludesAcross(a: string, c: char, b: string, word: string)
    requires word != "" && c !in word
    ensures Includes(a + [c] + b, word) <==> Includes(a, word) || Includes(b, word)
  {
    var s := a + [c] + b;
    assert s == "" + a + ([c] + b) && s == (a + [c]) + b + "";
    if Includes(a, word) {
      OccursWithin("", a, [c] + b, word, IndexOf(a, word, 0));
    }
    if Includes(b, word) {
      OccursWithin(a + [c], b, "", word, IndexOf(b, word, 0));
    }
    if Includes(s, word) {
      var i := IndexOf(s, word, 0);
      if i + |word| <= |a| {
        OccursWithin("", a, [c] + b, word, i);
      } else if i <= |a| {
        OccursChar(s, word, i, |a| - i);
        assert false;
      } else {
        OccursWithin(a + [c], b, "", word, i - |a| - 1);
      }
    }
  }

  lemma {:induction false} IncludesAfter(c: char, s: string, word: string)
    requires word != "" && word[0] != c
    ensures Includes([c] + s, word) <==> Includes(s, word)
  {
    assert [c] + s == [c] + s + "";
    if Includes(s, word) {
      OccursWithin([c], s, "", word, IndexOf(s, word, 0));
    }
    if Includes([c] + s, word) {
      var i := IndexOf([c] + s, word, 0);
      OccursChar([c] + s, word, i, 0);
      OccursWithin([c], s, "", word, i - 1);
    }
  }

  lemma {:induction false} IncludesBefore(s: string, c: char, word: string)
    requires word != "" && word[|word| - 1] != c
    ensures Includes(s + [c], word) <==> Includes(s, word)
  {
    assert s + [c] == "" + s + [c];
    if Includes(s, word) {
      OccursWithin("", s, [c], word, IndexOf(s, word, 0));
    }
    if Includes(s + [c], word) {
      var i := IndexOf(s + [c], word, 0);
      OccursChar(s + [c], word, i, |word| - 1);
      OccursWithin("", s, [c], word, i);
    }
  }
}
