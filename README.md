# Cat-meme picker: data-processing core

A model of the data-processing layer of the cat-meme picker page (`index.js`). The page
offers one radio button per emotion found in the cat data set, a "GIFs only" check box,
and a button that shows a random cat matching the checked emotion. The model covers the
three functions that compute something:

- the **emotion indexer** `getEmotionsArray`, modelled as the method
  `EmotionIndex.GetEmotionsArray`. Its nested loops append each tag to a growing list
  unless the list already includes it. The method is proved to return a duplicate-free
  list. That list holds exactly the tags some cat carries, in first-seen order (cat by
  cat, then tag by tag). `EmotionIndex.EmotionIndexUnique` shows these three properties
  determine the list;
- the **matcher** inside `getMatchingCatsArray`, modelled as the functions
  `Selector.FilterCats` and `Selector.GetMatchingCatsArray`. With no radio checked it
  yields `None` (the source returns `undefined`). Otherwise it yields the order-preserving
  subsequence of the cats that carry the emotion and, when "GIFs only" is ticked, are GIFs;
- the **picker** `getSingleCatObject`, modelled as `Selector.PickCat` and
  `Selector.GetSingleCatObject`. A single match is returned without a random draw. With
  more matches the cat at the drawn index is returned. No selection and no match are
  reported as the failures `NoSelection` and `NotFound`.

Modules: `Wrappers` (Option, Result), `CatData` (the cat record and its tags),
`EmotionIndex`, `Selector`, and `Scenarios`, which works a three-cat example through
all three parts.

Inputs the source reads from its surroundings are parameters here:

- the data set (imported from `/data.js`, which is not part of this model) is a
  `seq<Cat>`;
- the checked radio (`document.querySelector(...)`) is an `Option<string>`;
- the "GIFs only" box (`gifsOnlyOption.checked`) is a `bool`;
- `Math.floor(Math.random() * n)` is a natural-number `draw`. It must be below `n` only
  when `n > 1`, the only case where its value matters.

Where the source crashes or returns `undefined`, the model hardens this into a named
failure:

- with no radio checked, `getSingleCatObject` reads `.length` of `undefined` and throws.
  The model reports this as `NoSelection`;
- with no match, `floor(random * 0)` is 0 and `catsArray[0]` is `undefined`. The source
  then fails in `renderCat`. The model reports `NotFound`;
- the model does not assume every cat has at least one tag.

## Model

| member | source | states |
|---|---|---|
| `CatData.AllTagsMembership` | index.js:133-134 | A tag occurs among the tags the nested loops visit exactly when some cat's `emotionTags` contains it. |
| `EmotionIndex.GetEmotionsArray` | index.js:130-142 | The result has no duplicates. It holds exactly the tags some cat carries, nothing extra and nothing missed. It lists them in order of first occurrence, cat by cat and then tag by tag. |
| `EmotionIndex.FirstSeenOrderStep` | index.js:135-137 | Visiting one more tag keeps the list in first-seen order: unchanged when the tag is already included, extended by it when it is new. |
| `EmotionIndex.FirstSeenOrderIff` | index.js:133-137 | In the indexer's result, one emotion comes before another if and only if its first occurrence among the visited tags is earlier. |
| `EmotionIndex.EmotionIndexUnique` | index.js:130-142 | Any two lists that are duplicate-free, have the same elements and are in first-seen order are equal, so the indexer's postconditions determine its result. |
| `Selector.FilterCats` | index.js:118-123 | Every kept cat carries the selected emotion, and is a GIF when "GIFs only" is set. The result is no longer than the data set. |
| `Selector.FilterMembers` | index.js:118-123 | A cat is kept if and only if it is in the data set and matches the selection. |
| `Selector.FilterCount` | index.js:118-123 | Each matching cat occurs in the result as often as in the data set, and a non-matching cat never occurs: no match is dropped. |
| `Selector.FilterConcat` | index.js:118-123 | Filtering a concatenation gives the two filtered parts, concatenated in the same order: the filter preserves the data set's order. |
| `Selector.GetMatchingCatsArray` | index.js:111-125 | No array (`undefined`) if and only if no radio is checked. Otherwise the array holds all and only the cats of the data set that carry the checked emotion and, with "GIFs only", are GIFs. |
| `Selector.PickCat` | index.js:98-103 | A cat is produced if and only if there is a match, and it is one of the matches. A single match is returned whatever the draw. With two or more matches the cat at the drawn index is returned. |
| `Selector.PickCatReachesEveryMatch` | index.js:102-103 | Every match is shown for some draw in range. |
| `Selector.GetSingleCatObject` | index.js:95-104 | Fails with `NoSelection` if and only if no radio is checked. Fails with `NotFound` if and only if a radio is checked and no cat matches. Any cat returned is from the data set and matches the selection. A sole match is returned; with two or more matches the match at the drawn index is returned. |
| `Scenarios.ScenarioEmotions` | index.js:130-142 | For the three-cat example (happy PNG, happy GIF, sad PNG), the indexer's result must be `["happy", "sad"]`. |
| `Scenarios.ScenarioSelection` | index.js:95-125 | For the same example: "happy" matches the PNG and the GIF in that order. "happy" with "GIFs only" yields just the GIF, which is shown. "sad" with "GIFs only" gives `NotFound`. No selection gives `NoSelection`. |

## Left out

- Event-listener wiring, the modal's opening and closing, and `closeModal` (index.js:24-38, 62-65, 83-84): DOM side effects with no computed result.
- `highlightCheckedOption` (index.js:49-57): toggles CSS classes on DOM nodes.
- `renderCat` (index.js:72-85) and `renderEmotionsRadios` (index.js:152-171): HTML string templating into `innerHTML`. `renderEmotionsRadios` emits one radio block per element of `getEmotionsArray`'s result, in that order. The properties above are about that list.
- `/data.js` is not part of this model. The data set is an arbitrary sequence of cats.
- `Math.random()` and the floating-point multiply-and-floor (index.js:102): replaced by the `draw` parameter. Uniformity of the draw is not modelled.
- The JavaScript `TypeError` thrown when `getMatchingCatsArray` returns `undefined` (index.js:96-98): modelled as the `NoSelection` failure, not as an exception.
- GetSingleCatObject: with no match, `getSingleCatObject` reads `catsArray[0]` and returns `undefined` (index.js:102-103), and the page only fails later, when `renderCat` reads `catObject.image` (index.js:78). The model reports this case as the `NotFound` failure instead of returning an undefined cat.
- Idempotence of the matcher: it holds by construction, since `GetMatchingCatsArray` is a function of its parameters.
