/** The selector: which cats match the chosen emotion and the "GIFs only" box, and
    which one of them is shown. */
module Selector {
  import opened Wrappers
  import opened CatData

  /** Why no cat is shown: no emotion radio is checked, or nothing matches. */
  datatype PickError = NoSelection | NotFound

  /** The filter predicate of `getMatchingCatsArray` (index.js). */
  predicate Matches(cat: Cat, emotion: string, gifsOnly: bool)
  {
    if gifsOnly then emotion in cat.emotionTags && cat.isGif
    else emotion in cat.emotionTags
  }

  /** `catsData.filter(...)` with the predicate above: the cats that match, in their
      original order, each as often as it occurs in the data set. */
  function FilterCats(cats: seq<Cat>, emotion: string, gifsOnly: bool): (r: seq<Cat>)
    ensures |r| <= |cats|
    ensures forall i :: 0 <= i < |r| ==> emotion in r[i].emotionTags && (gifsOnly ==> r[i].isGif)
  {
    if cats == [] then []
    else
      assert cats == [cats[0]] + cats[1..];
      (if Matches(cats[0], emotion, gifsOnly) then [cats[0]] else []) + FilterCats(cats[1..], emotion, gifsOnly)
  }

  /** Filtering a list that starts with `c` keeps `c` in front when it matches. */
  lemma FilterCons(c: Cat, rest: seq<Cat>, emotion: string, gifsOnly: bool)
    ensures FilterCats([c] + rest, emotion, gifsOnly) ==
      (if Matches(c, emotion, gifsOnly) then [c] else []) + FilterCats(rest, emotion, gifsOnly)
  {
    assert ([c] + rest)[1..] == rest;
  }

  /** Filtering a concatenation filters each part and keeps them in order; together
      with FilterSingle this says the result is the order-preserving subsequence of
      matching cats. */
  lemma {:induction false} FilterConcat(a: seq<Cat>, b: seq<Cat>, emotion: string, gifsOnly: bool)
    ensures FilterCats(a + b, emotion, gifsOnly) == FilterCats(a, emotion, gifsOnly) + FilterCats(b, emotion, gifsOnly)
  {
    if a == [] {
      assert a + b == b;
    } else {
      var c, rest := a[0], a[1..];
      assert a == [c] + rest;
      assert a + b == [c] + (rest + b);
      FilterCons(c, rest, emotion, gifsOnly);
      FilterCons(c, rest + b, emotion, gifsOnly);
      FilterConcat(rest, b, emotion, gifsOnly);
      var head := if Matches(c, emotion, gifsOnly) then [c] else [];
      var x, y := FilterCats(rest, emotion, gifsOnly), FilterCats(b, emotion, gifsOnly);
      assert FilterCats(a + b, emotion, gifsOnly) == head + (x + y);
      assert FilterCats(a, emotion, gifsOnly) == head + x;
      assert head + (x + y) == (head + x) + y;
    }
  }

  /** No matching cat is dropped, not even a repeated one: each matching cat occurs in the
      result as often as in the data set, and no other cat occurs in it. */
  lemma {:induction false} FilterCount(cats: seq<Cat>, emotion: string, gifsOnly: bool, c: Cat)
    ensures multiset(FilterCats(cats, emotion, gifsOnly))[c] ==
      if Matches(c, emotion, gifsOnly) then multiset(cats)[c] else 0
  {
    if cats != [] {
      assert cats == [cats[0]] + cats[1..];
      FilterCount(cats[1..], emotion, gifsOnly, c);
    }
  }

  /** A cat is kept exactly when it is in the data set and matches. */
  lemma FilterMembers(cats: seq<Cat>, emotion: string, gifsOnly: bool)
    ensures forall c :: c in FilterCats(cats, emotion, gifsOnly) <==> c in cats && Matches(c, emotion, gifsOnly)
  {
    forall c ensures c in FilterCats(cats, emotion, gifsOnly) <==> c in cats && Matches(c, emotion, gifsOnly) {
      FilterCount(cats, emotion, gifsOnly, c);
    }
  }

  /** A single cat is kept exactly when it matches. */
  lemma FilterSingle(c: Cat, emotion: string, gifsOnly: bool)
    ensures FilterCats([c], emotion, gifsOnly) == if Matches(c, emotion, gifsOnly) then [c] else []
  {
  }

  /** Models `getMatchingCatsArray` (index.js): with no radio checked it returns nothing
      (`undefined`); otherwise the cats that carry the checked emotion and, when the
      "GIFs only" box is ticked, are GIFs. */
  function GetMatchingCatsArray(cats: seq<Cat>, selected: Option<string>, gifsOnly: bool): (r: Option<seq<Cat>>)
    ensures r.None? <==> selected.None?
    ensures r.Some? ==> forall c :: c in r.value ==>
      c in cats && selected.value in c.emotionTags && (gifsOnly ==> c.isGif)
    ensures r.Some? ==> forall c :: c in cats && selected.value in c.emotionTags && (gifsOnly ==> c.isGif) ==>
      c in r.value
    ensures r.Some? ==> r.value == FilterCats(cats, selected.value, gifsOnly)
  {
    match selected
    case None => None
    case Some(emotion) =>
      FilterMembers(cats, emotion, gifsOnly);
      Some(FilterCats(cats, emotion, gifsOnly))
  }

  /** The choice among the matches in `getSingleCatObject` (index.js). `draw` stands for
      `Math.floor(Math.random() * matches.length)`: it is only used, and only needs to be
      in range, when there are two or more matches. With no match the index reads past
      the end and no cat is produced. */
  function PickCat(matches: seq<Cat>, draw: nat): (r: Option<Cat>)
    requires |matches| > 1 ==> draw < |matches|
    ensures r.Some? <==> matches != []
    ensures r.Some? ==> r.value in matches
    ensures |matches| == 1 ==> r == Some(matches[0])
    ensures |matches| > 1 ==> r == Some(matches[draw])
  {
    if |matches| == 1 then Some(matches[0])
    else if draw < |matches| then Some(matches[draw])
    else None
  }

  /** Every match can be shown: some admissible draw picks it. */
  lemma PickCatReachesEveryMatch(matches: seq<Cat>, c: Cat)
    requires c in matches
    ensures exists draw: nat :: (|matches| > 1 ==> draw < |matches|) && PickCat(matches, draw) == Some(c)
  {
    var k :| 0 <= k < |matches| && matches[k] == c;
    assert PickCat(matches, k) == Some(c);
  }

  /** Models `getSingleCatObject` (index.js): the matching cats for the current radio and
      check box, then one of them. A missing selection (where the source reads `.length`
      of `undefined`) and an empty match list are reported as failures. */
  function GetSingleCatObject(cats: seq<Cat>, selected: Option<string>, gifsOnly: bool, draw: nat): (r: Result<Cat, PickError>)
    requires selected.Some? && |FilterCats(cats, selected.value, gifsOnly)| > 1 ==>
      draw < |FilterCats(cats, selected.value, gifsOnly)|
    ensures r == Failure(NoSelection) <==> selected.None?
    ensures r == Failure(NotFound) <==> selected.Some? && forall c :: c in cats ==> !Matches(c, selected.value, gifsOnly)
    ensures r.Success? ==> r.value in cats && selected.Some? && Matches(r.value, selected.value, gifsOnly)
    ensures selected.Some? && |FilterCats(cats, selected.value, gifsOnly)| == 1 ==>
      r == Success(FilterCats(cats, selected.value, gifsOnly)[0])
    ensures selected.Some? && |FilterCats(cats, selected.value, gifsOnly)| > 1 ==>
      r == Success(FilterCats(cats, selected.value, gifsOnly)[draw])
  {
    match GetMatchingCatsArray(cats, selected, gifsOnly)
    case None => Failure(NoSelection)
    case Some(matches) =>
      match PickCat(matches, draw)
      case None => Failure(NotFound)
      case Some(cat) => Success(cat)
  }
}
