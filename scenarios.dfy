/** A three-cat data set worked through the indexer, the matcher and the picker. */
module Scenarios {
  import opened Wrappers
  import opened CatData
  import opened EmotionIndex
  import opened Selector

  const HappyPng := Cat("a.png", "a happy cat", ["happy"], false)
  const HappyGif := Cat("b.gif", "a happy animated cat", ["happy"], true)
  const SadPng := Cat("c.png", "a sad cat", ["sad"], false)
  const Data := [HappyPng, HappyGif, SadPng]

  /** The tags of the example in visiting order. */
  lemma DataTags()
    ensures AllTags(Data) == ["happy", "happy", "sad"]
  {
    assert [HappyPng][..0] == [] && Data[..2][..1] == [HappyPng] && Data[..2] == [HappyPng, HappyGif];
    assert AllTags([HappyPng]) == ["happy"];
    assert AllTags(Data[..2]) == ["happy", "happy"];
  }

  /** Whatever `GetEmotionsArray(Data)` returns, its postconditions force it to be
      ["happy", "sad"]. */
  lemma ScenarioEmotions(r: seq<string>)
    requires NoDuplicates(r)
    requires forall e :: e in r <==> Tagged(Data, e)
    requires FirstSeenOrder(AllTags(Data), r)
    ensures r == ["happy", "sad"]
  {
    var expected := ["happy", "sad"];
    var seen := AllTags(Data);
    DataTags();
    forall e ensures e in r <==> e in expected {
      AllTagsMembership(Data, e);
    }
    assert FirstIndex(seen, "happy") == 0 && FirstIndex(seen, "sad") == 2;
    EmotionIndexUnique(seen, r, expected);
  }

  /** The matches for each selection of the worked example, and the failures. */
  lemma ScenarioSelection()
    ensures FilterCats(Data, "happy", false) == [HappyPng, HappyGif]
    ensures FilterCats(Data, "happy", true) == [HappyGif]
    ensures GetSingleCatObject(Data, Some("happy"), true, 0) == Success(HappyGif)
    ensures GetSingleCatObject(Data, Some("sad"), true, 0) == Failure(NotFound)
    ensures GetSingleCatObject(Data, None, false, 0) == Failure(NoSelection)
  {
    assert Data[1..] == [HappyGif, SadPng] && Data[1..][1..] == [SadPng] && Data[1..][1..][1..] == [];
    assert FilterCats([SadPng], "happy", false) == [] && FilterCats([SadPng], "happy", true) == [];
    assert FilterCats([HappyGif, SadPng], "happy", false) == [HappyGif];
    assert FilterCats([HappyGif, SadPng], "happy", true) == [HappyGif];
  }
}
