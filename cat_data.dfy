/** The cat records the picker works on, and the tags they carry. */
module CatData {

  /** One entry of the data set: an image file, its alt text, its emotion tags and
      whether it is an animated GIF. */
  datatype Cat = Cat(image: string, alt: string, emotionTags: seq<string>, isGif: bool)

  /** The emotion tags of all cats, cat by cat and, within a cat, tag by tag: the
      order in which the nested loops of the emotion indexer visit them. */
  function AllTags(cats: seq<Cat>): (tags: seq<string>)
    ensures cats == [] ==> tags == []
  {
    if cats == [] then [] else AllTags(cats[..|cats| - 1]) + cats[|cats| - 1].emotionTags
  }

  /** Some cat of the data set carries emotion `e`. */
  ghost predicate Tagged(cats: seq<Cat>, e: string)
  {
    exists k :: 0 <= k < |cats| && e in cats[k].emotionTags
  }

  /** A tag occurs in the flattened tag sequence exactly when some cat carries it. */
  lemma {:induction false} AllTagsMembership(cats: seq<Cat>, e: string)
    ensures e in AllTags(cats) <==> Tagged(cats, e)
  {
    if cats != [] {
      var init := cats[..|cats| - 1];
      var last := cats[|cats| - 1];
      AllTagsMembership(init, e);
      assert AllTags(cats) == AllTags(init) + last.emotionTags;
      if Tagged(init, e) {
        var k :| 0 <= k < |init| && e in init[k].emotionTags;
        assert cats[k] == init[k];
      }
      if Tagged(cats, e) && e !in last.emotionTags {
        var k :| 0 <= k < |cats| && e in cats[k].emotionTags;
        assert k < |init| && init[k] == cats[k];
      }
    }
  }
}
