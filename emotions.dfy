/** The emotion indexer: the list of distinct emotions offered as radio options. */
module EmotionIndex {
  import opened CatData

  /** No element occurs twice. */
  ghost predicate NoDuplicates<T>(s: seq<T>)
  {
    forall i, j :: 0 <= i < j < |s| ==> s[i] != s[j]
  }

  /** The position of the first occurrence of `x` in `s`. */
  function FirstIndex<T(==)>(s: seq<T>, x: T): (k: nat)
    requires x in s
    ensures k < |s| && s[k] == x
    ensures forall i :: 0 <= i < k ==> s[i] != x
  {
    if s[0] == x then 0
    else
      assert s == [s[0]] + s[1..];
      1 + FirstIndex(s[1..], x)
  }

  /** Every element of `r` occurs in `seen`, and the elements of `r` are listed in the
      order of their first occurrences in `seen`. */
  ghost predicate FirstSeenOrder(seen: seq<string>, r: seq<string>)
  {
    && (forall x :: x in r ==> x in seen)
    && (forall i, j :: 0 <= i < j < |r| ==> FirstIndex(seen, r[i]) < FirstIndex(seen, r[j]))
  }

  /** Appending to `s` does not move the first occurrence of anything already in `s`. */
  lemma {:induction false} FirstIndexAppend(s: seq<string>, t: seq<string>, x: string)
    requires x in s
    ensures x in s + t && FirstIndex(s + t, x) == FirstIndex(s, x)
  {
    if s[0] != x {
      assert (s + t)[1..] == s[1..] + t;
      FirstIndexAppend(s[1..], t, x);
    }
  }

  /** Seeing one more tag keeps the list in first-seen order: unchanged when the tag was
      seen before, extended by the tag when it is new. */
  lemma FirstSeenOrderStep(seen: seq<string>, r: seq<string>, t: string)
    requires FirstSeenOrder(seen, r)
    ensures FirstSeenOrder(seen + [t], r)
    ensures t !in seen ==> FirstSeenOrder(seen + [t], r + [t])
  {
    forall x | x in seen
      ensures FirstIndex(seen + [t], x) == FirstIndex(seen, x)
    {
      FirstIndexAppend(seen, [t], x);
    }
    if t !in seen {
      var r' := r + [t];
      assert FirstIndex(seen + [t], t) == |seen|;
      forall i, j | 0 <= i < j < |r'|
        ensures FirstIndex(seen + [t], r'[i]) < FirstIndex(seen + [t], r'[j])
      {
        assert r'[i] == r[i] && r[i] in seen;
        if j == |r| {
          assert FirstIndex(seen, r[i]) < |seen|;
        } else {
          assert r'[j] == r[j] && r[j] in seen;
        }
      }
    }
  }

  /** Models `getEmotionsArray` (index.js): walks every cat and every tag of that cat and
      appends a tag to the result unless the result already includes it. */
  method GetEmotionsArray(cats: seq<Cat>) returns (emotions: seq<string>)
    ensures NoDuplicates(emotions)
    ensures forall e :: e in emotions <==> Tagged(cats, e)
    ensures FirstSeenOrder(AllTags(cats), emotions)
  {
    emotions := [];
    for i := 0 to |cats|
      invariant NoDuplicates(emotions)
      invariant forall e :: e in emotions <==> e in AllTags(cats[..i])
      invariant FirstSeenOrder(AllTags(cats[..i]), emotions)
    {
      ghost var before := AllTags(cats[..i]);
      var tags := cats[i].emotionTags;
      assert before + tags[..0] == before;
      for j := 0 to |tags|
        invariant NoDuplicates(emotions)
        invariant forall e :: e in emotions <==> e in before + tags[..j]
        invariant FirstSeenOrder(before + tags[..j], emotions)
      {
        var emotion := tags[j];
        ghost var seen := before + tags[..j];
        assert before + tags[..j + 1] == seen + [emotion];
        FirstSeenOrderStep(seen, emotions, emotion);
        if emotion !in emotions {
          emotions := emotions + [emotion];
        }
      }
      assert cats[..i + 1][..i] == cats[..i];
      assert tags[..|tags|] == tags;
    }
    assert cats[..|cats|] == cats;
    forall e ensures e in AllTags(cats) <==> Tagged(cats, e) {
      AllTagsMembership(cats, e);
    }
  }

  /** In a list in first-seen order, one emotion comes before another exactly when it was
      seen first. */
  lemma FirstSeenOrderIff(seen: seq<string>, r: seq<string>, i: nat, j: nat)
    requires FirstSeenOrder(seen, r) && NoDuplicates(r)
    requires i < |r| && j < |r|
    ensures r[i] in seen && r[j] in seen
    ensures i < j <==> FirstIndex(seen, r[i]) < FirstIndex(seen, r[j])
  {
  }

  /** The three properties `GetEmotionsArray` ensures determine its result: any two lists
      that have them are equal. */
  lemma {:induction false} EmotionIndexUnique(seen: seq<string>, a: seq<string>, b: seq<string>)
    requires NoDuplicates(a) && FirstSeenOrder(seen, a)
    requires NoDuplicates(b) && FirstSeenOrder(seen, b)
    requires forall x :: x in a <==> x in b
    ensures a == b
  {
    assert a != [] ==> a[0] in b;
    assert b != [] ==> b[0] in a;
    if a != [] {
      var i :| 0 <= i < |b| && b[i] == a[0];
      var j :| 0 <= j < |a| && a[j] == b[0];
      ghost var fa, fb := FirstIndex(seen, a[0]), FirstIndex(seen, b[0]);
      assert i == 0;
      var a', b' := a[1..], b[1..];
      forall x ensures x in a' <==> x in b' {
        assert x in a' <==> x in a && x != a[0];
        assert x in b' <==> x in b && x != b[0];
      }
      assert FirstSeenOrder(seen, a') by {
        forall i, j | 0 <= i < j < |a'| ensures FirstIndex(seen, a'[i]) < FirstIndex(seen, a'[j]) {
          assert a'[i] == a[i + 1] && a'[j] == a[j + 1];
        }
      }
      assert FirstSeenOrder(seen, b') by {
        forall i, j | 0 <= i < j < |b'| ensures FirstIndex(seen, b'[i]) < FirstIndex(seen, b'[j]) {
          assert b'[i] == b[i + 1] && b'[j] == b[j + 1];
        }
      }
      EmotionIndexUnique(seen, a', b');
      assert a == [a[0]] + a' && b == [b[0]] + b';
    }
  }
}
