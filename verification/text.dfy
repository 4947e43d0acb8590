/** Substring search on strings, as the C library's `strstr` and JavaScript's
    `String.prototype.includes` perform it. */
module Text {
  import opened Options

  /** `sub` sits in `s` starting at offset `i`. */
  predicate OccursAt(sub: string, s: string, i: int)
  {
    0 <= i && i + |sub| <= |s| && s[i..i + |sub|] == sub
  }

  /** The first offset at or after `from` where `sub` occurs in `s`, or None
      when there is none. With `from == 0` this is `strstr`: a NULL result is
      None and a non-NULL result points at the first occurrence. */
  function FindFrom(s: string, sub: string, from: nat): (r: Option<nat>)
    ensures r.Some? ==> from <= r.value && OccursAt(sub, s, r.value)
    ensures r.Some? ==> forall j :: from <= j < r.value ==> !OccursAt(sub, s, j)
    ensures r.None? ==> forall j :: from <= j ==> !OccursAt(sub, s, j)
    decreases |s| - from
  {
    if from + |sub| > |s| then None
    else if s[from..from + |sub|] == sub then Some(from)
    else FindFrom(s, sub, from + 1)
  }

  /** `strstr(s, sub) != NULL`, equivalently `s.includes(sub)`. */
  predicate Occurs(sub: string, s: string)
  {
    FindFrom(s, sub, 0).Some?
  }

  /** Occurrence is exactly the existence of a matching offset. */
  lemma OccursIff(sub: string, s: string)
    ensures Occurs(sub, s) <==> exists i :: OccursAt(sub, s, i)
  {
    if Occurs(sub, s) {
      assert OccursAt(sub, s, FindFrom(s, sub, 0).value);
    }
  }

  /** A witness offset is enough to show an occurrence. */
  lemma OccursFromWitness(sub: string, s: string, i: int)
    requires OccursAt(sub, s, i)
    ensures Occurs(sub, s)
  {
  }

  /** Text put together around `sub` contains `sub`. */
  lemma OccursInConcat(pre: string, sub: string, post: string)
    ensures Occurs(sub, pre + sub + post)
  {
    var s := pre + sub + post;
    assert s[|pre|..|pre| + |sub|] == sub;
    OccursFromWitness(sub, s, |pre|);
  }

  /** The empty string occurs in every string, as `strstr(s, "")` returns `s`. */
  lemma EmptyOccurs(s: string)
    ensures Occurs("", s)
  {
    assert OccursAt("", s, 0);
  }

  /** A character of `sub` that `s` lacks rules out every occurrence. */
  lemma AbsentChar(sub: string, s: string, c: char)
    requires c in sub && c !in s
    ensures !Occurs(sub, s)
  {
  }
}
