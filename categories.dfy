/**
 * Categorisation of the detected transactions: the fallback chain of
 * `getCategory` and the loop of `import` that fills in only the categories
 * that are absent.
 */
module Categories {
  import opened Wrappers
  import opened Domain
  import opened Lists
  import Text

  /** `categories.find(c => c.name.toLowerCase() === lower)`. */
  function FindNamed(categories: seq<Category>, lower: string): (r: Option<Category>)
    ensures r.None? <==> forall i :: 0 <= i < |categories| ==> Text.ToLower(categories[i].name) != lower
    ensures r.Some? ==> exists i :: 0 <= i < |categories| && categories[i] == r.value
                          && Text.ToLower(r.value.name) == lower
                          && forall j :: 0 <= j < i ==> Text.ToLower(categories[j].name) != lower
  {
    Find(categories, (c: Category) => Text.ToLower(c.name) == lower)
  }

  /** The index of the first ledger record that carries a category (`find(tr => tr.category)`). */
  function FirstCategorized(records: seq<Transaction>): (r: Option<nat>)
    ensures r.Some? ==> r.value < |records| && records[r.value].category.Some?
                        && forall j :: 0 <= j < r.value ==> records[j].category.None?
    ensures r.None? ==> forall j :: 0 <= j < |records| ==> records[j].category.None?
  {
    FindIndex(records, (tr: Transaction) => tr.category.Some?)
  }

  /**
   * `getCategory`: a hint matched case-insensitively against the category
   * list (or kept as it is); for a transfer leg or merged record, the
   * transfer category; then the category of the first similar ledger record
   * that has one; finally the "others" category. A missing canonical
   * category is replaced by a fresh one named "Transfer" or "Others".
   */
  function GetCategory(t: Transaction, categories: seq<Category>, similar: Search): (c: Category)
    // a hint keeps its name up to case, and comes from the list whenever the list has a match
    ensures t.category.Some? ==>
      Text.ToLower(c.name) == Text.ToLower(t.category.value.name)
      && (c in categories || (c == t.category.value && FindNamed(categories, Text.ToLower(c.name)).None?))
      && (FindNamed(categories, Text.ToLower(t.category.value.name)).Some? ==>
            c == FindNamed(categories, Text.ToLower(t.category.value.name)).value)
    // no hint, a transfer: the transfer category
    ensures t.category.None? && t.transferId.Some? ==>
      Text.ToLower(c.name) == "transfer"
      && (c in categories || (c == Category(None, "Transfer") && FindNamed(categories, "transfer").None?))
      && (FindNamed(categories, "transfer").Some? ==> c == FindNamed(categories, "transfer").value)
    // no hint, not a transfer, a similar ledger record with a category: the first such category
    ensures t.category.None? && t.transferId.None? && FirstCategorized(similar(t.description)).Some? ==>
      Some(c) == similar(t.description)[FirstCategorized(similar(t.description)).value].category
    // otherwise: the "others" category
    ensures t.category.None? && t.transferId.None? && FirstCategorized(similar(t.description)).None? ==>
      Text.ToLower(c.name) == "others"
      && (c in categories || (c == Category(None, "Others") && FindNamed(categories, "others").None?))
      && (FindNamed(categories, "others").Some? ==> c == FindNamed(categories, "others").value)
  {
    assert Text.ToLower("Transfer") == "transfer" by {
      assert Text.LowerChar('T') == 't';
    }
    assert Text.ToLower("Others") == "others" by {
      assert Text.LowerChar('O') == 'o';
    }
    var records := similar(t.description);
    var withCategory := FirstCategorized(records);
    if t.category.Some? then
      FindNamed(categories, Text.ToLower(t.category.value.name)).GetOr(t.category.value)
    else if t.transferId.Some? then
      FindNamed(categories, "transfer").GetOr(Category(None, "Transfer"))
    else if withCategory.Some? then
      records[withCategory.value].category.value
    else
      FindNamed(categories, "others").GetOr(Category(None, "Others"))
  }

  /**
   * One turn of the loop of `import` that sets categories: a transaction
   * without a category gets the one `getCategory` chooses; one with a
   * category is left alone, so the hint branch of `getCategory` is never
   * reached from here.
   */
  function Categorized(t: Transaction, categories: seq<Category>, similar: Search): (r: Transaction)
    ensures r.category.Some?
    ensures t.category.Some? ==> r == t
    ensures r == t.(category := r.category)
  {
    if t.category.None? then t.(category := Some(GetCategory(t, categories, similar))) else t
  }

  /** Running the categorisation again changes nothing. */
  lemma CategorizedIdempotent(t: Transaction, categories: seq<Category>, similar: Search)
    ensures Categorized(Categorized(t, categories, similar), categories, similar) == Categorized(t, categories, similar)
  {
  }

  /**
   * A merged transfer record, or a leg, that arrives without a category is
   * put in the transfer category, whatever the ledger holds.
   */
  lemma TransfersCategorizedAsTransfer(t: Transaction, categories: seq<Category>, similar: Search)
    requires t.transferId.Some? && t.category.None?
    ensures Text.ToLower(Categorized(t, categories, similar).category.value.name) == "transfer"
  {
  }

  /**
   * The loop of `import` over the detected transactions: every element ends
   * with a category, and the ones that had one are untouched.
   */
  method AssignCategories(a: array<Transaction>, categories: seq<Category>, similar: Search)
    modifies a
    ensures forall i :: 0 <= i < a.Length ==> a[i] == Categorized(old(a[i]), categories, similar)
    ensures forall i :: 0 <= i < a.Length ==> a[i].category.Some?
  {
    for i := 0 to a.Length
      invariant forall k :: 0 <= k < i ==> a[k] == Categorized(old(a[k]), categories, similar)
      invariant forall k :: i <= k < a.Length ==> a[k] == old(a[k])
    {
      if a[i].category.None? {
        a[i] := Categorized(a[i], categories, similar);
      }
    }
  }
}
