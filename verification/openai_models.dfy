/**
 * The OpenAI model catalog (`OpenAIModelsService`): keeps the model ids that
 * look like chat or coding models, sorted in descending order, and caches them
 * through the shared model cache. The `/v1/models` response is a parameter:
 * the ids it lists, or the error the request ends in.
 */
module OpenAIModels {
  import opened Wrappers
  import opened Interfaces
  import Text
  import Sorting
  import BaseModels

  /** The substrings that mark a model id as one the catalog keeps. */
  const CodingModelPatterns: seq<string> := ["gpt-4", "gpt-4o", "gpt-3.5-turbo", "o1-preview", "o1-mini"]

  /** `codingModelPatterns.some(pattern => id.includes(pattern))`. */
  predicate IsCodingModel(id: string) {
    exists k :: 0 <= k < |CodingModelPatterns| && Text.Contains(id, CodingModelPatterns[k])
  }

  /** Every id containing `gpt-4o` already contains `gpt-4`: that pattern adds nothing. */
  lemma Gpt4oSubsumed(id: string)
    requires Text.Contains(id, "gpt-4o")
    ensures Text.Contains(id, "gpt-4")
  {
    Text.ContainsIffOccurs(id, "gpt-4o");
    var i :| Text.OccursAt(id, "gpt-4o", i);
    assert id[i..i + 6] == "gpt-4o";
    assert id[i..i + 5] == id[i..i + 6][..5];
    assert Text.OccursAt(id, "gpt-4", i);
    Text.ContainsIffOccurs(id, "gpt-4");
  }

  /** The `.filter(...)` step: the coding models, in their original order, each as often as listed. */
  function FilterCoding(ids: seq<string>): (r: seq<string>)
    ensures forall x :: x in r ==> IsCodingModel(x)
    ensures forall x :: multiset(r)[x] == if IsCodingModel(x) then multiset(ids)[x] else 0
  {
    if |ids| == 0 then []
    else
      assert ids == [ids[0]] + ids[1..];
      var rest := FilterCoding(ids[1..]);
      if IsCodingModel(ids[0]) then [ids[0]] + rest else rest
  }

  /** `b.localeCompare(a)` below zero: `a` goes first when it is the later string. */
  predicate Descending(a: string, b: string) {
    Text.LexLe(b, a)
  }

  lemma DescendingTotalOrder()
    ensures Sorting.TotalOrder(Descending)
  {
    forall a, b ensures Descending(a, b) || Descending(b, a) {
      Text.LexTotal(a, b);
    }
    forall a, b | Descending(a, b) && Descending(b, a) ensures a == b {
      Text.LexAntisymmetric(a, b);
    }
    forall a, b, c | Descending(a, b) && Descending(b, c) ensures Descending(a, c) {
      Text.LexTransitive(c, b, a);
    }
  }

  /** The catalog built from the ids a `/v1/models` response lists. */
  function SelectModels(ids: seq<string>): (r: seq<string>)
    ensures Sorting.SortedBy(r, Descending)
    ensures forall x :: x in r <==> x in ids && IsCodingModel(x)
    ensures forall x :: multiset(r)[x] == if IsCodingModel(x) then multiset(ids)[x] else 0
  {
    DescendingTotalOrder();
    Sorting.SortSorted(FilterCoding(ids), Descending);
    var r := Sorting.Sort(FilterCoding(ids), Descending);
    assert forall x :: x in r <==> multiset(r)[x] > 0;
    assert forall x :: x in ids <==> multiset(ids)[x] > 0;
    r
  }

  /** The catalog does not depend on the order in which the response lists the models. */
  lemma SelectModelsOrderIndependent(ids1: seq<string>, ids2: seq<string>)
    requires multiset(ids1) == multiset(ids2)
    ensures SelectModels(ids1) == SelectModels(ids2)
  {
    DescendingTotalOrder();
    var f1 := FilterCoding(ids1);
    var f2 := FilterCoding(ids2);
    assert forall x :: multiset(f1)[x] == multiset(f2)[x];
    assert multiset(f1) == multiset(f2);
    Sorting.SortPermutationInvariant(f1, f2, Descending);
  }

  /** The catalog request: refused without a key; the request's error propagates; otherwise the selection. */
  function Fetch(key: Option<string>, response: Result<seq<string>, Error>): (r: Result<seq<string>, Error>)
    ensures !Given(key) ==> r == Err(AuthMissing)
    ensures Given(key) && response.Err? ==> r == Err(response.error)
    ensures Given(key) && response.Ok? ==> r == Ok(SelectModels(response.value))
  {
    if !Given(key) then Err(AuthMissing)
    else
      var ids :- response;
      Ok(SelectModels(ids))
  }

  /**
   * `fetchAndCacheModels`: without a key nothing is requested or cached; on
   * success the list returned is the list cached.
   */
  function FetchAndCacheModels(key: Option<string>, response: Result<seq<string>, Error>,
                               slot: BaseModels.CacheSlot, now: int): (r: BaseModels.Outcome)
    ensures !Given(key) ==> r.result == Err(AuthMissing) && r.slot == slot
    ensures Given(key) && response.Err? ==> r.result == Err(response.error) && r.slot == slot
    ensures Given(key) && response.Ok? ==> r.result == Ok(SelectModels(response.value))
    ensures r.result.Ok? ==> BaseModels.GetCachedModels(r.slot) == Some(BaseModels.CachedModels(r.result.value, now))
    ensures r.result.Ok? ==> Sorting.SortedBy(r.result.value, Descending)
    ensures r.result.Ok? ==> forall x :: x in r.result.value ==> IsCodingModel(x)
  {
    BaseModels.FetchAndCache(slot, Fetch(key, response), now)
  }

  /** `getModels` on the `openai_models_cache` entry. */
  function GetModels(key: Option<string>, response: Result<seq<string>, Error>,
                     slot: BaseModels.CacheSlot, now: int): (r: BaseModels.Outcome)
    ensures r.fetched ==> r == FetchAndCacheModels(key, response, slot, now)
    ensures r.fetched && r.result.Ok? ==> Sorting.SortedBy(r.result.value, Descending)
  {
    BaseModels.GetModels(slot, now, Fetch(key, response))
  }
}
