/** `displayLimitedRecipes` (static/js/scripts.js): the first five recipes are listed
    at once, and a "Show More" button, present only when there are more, lists the rest. */
module Recipes {

  const MaxDisplayCount := 5

  /** `recipes.slice(0, maxDisplayCount)`. */
  function ShownFirst<T>(recipes: seq<T>): (shown: seq<T>)
    ensures |shown| <= MaxDisplayCount
    ensures |shown| <= |recipes| && shown == recipes[..|shown|]
    ensures |recipes| >= MaxDisplayCount ==> |shown| == MaxDisplayCount
  {
    if |recipes| <= MaxDisplayCount then recipes else recipes[..MaxDisplayCount]
  }

  /** `recipes.slice(maxDisplayCount)`: what the button lists. */
  function ShownOnShowMore<T>(recipes: seq<T>): (more: seq<T>)
    ensures |recipes| <= MaxDisplayCount ==> more == []
  {
    if |recipes| <= MaxDisplayCount then [] else recipes[MaxDisplayCount..]
  }

  /** `recipes.length > maxDisplayCount`: whether the button is added. */
  predicate HasShowMore<T>(recipes: seq<T>) {
    |recipes| > MaxDisplayCount
  }

  /** The two parts, one after the other, are the whole list; the button is there
      exactly when it has something to list. */
  lemma PartsMakeWholeList<T>(recipes: seq<T>)
    ensures ShownFirst(recipes) + ShownOnShowMore(recipes) == recipes
    ensures HasShowMore(recipes) <==> ShownOnShowMore(recipes) != []
  {
  }
}
