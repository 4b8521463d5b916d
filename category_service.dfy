/** The in-memory category store: the same shape as the task store, with
    identifiers kept as decimal strings. */
module CategoryStore {
  import opened Common
  import opened Text
  import opened Records

  const NotFound := "Category not found"

  /** An identifier `parseInt` reads as a number: a string of decimal digits. */
  predicate NumericString(id: Id) {
    id.StrId? && ParseDecimal(id.s).Some?
  }

  /** `parseInt(id)` on such an identifier. */
  function IdValue(id: Id): nat
    requires NumericString(id)
  {
    ParseDecimal(id.s).value
  }

  /** Every stored identifier is a decimal string, and no two categories share one. */
  predicate WellFormed(categories: seq<Category>) {
    && (forall i :: 0 <= i < |categories| ==> NumericString(categories[i].id))
    && Distinct(CategoryIds(categories))
  }

  /** Splicing one category out keeps the store well formed and leaves no
      category with the removed identifier. */
  lemma SpliceKeepsWellFormed(categories: seq<Category>, i: nat)
    requires WellFormed(categories) && i < |categories|
    ensures WellFormed(categories[..i] + categories[i + 1..])
    ensures categories[i].id !in CategoryIds(categories[..i] + categories[i + 1..])
  {
    var ids := CategoryIds(categories);
    var rest := categories[..i] + categories[i + 1..];
    RemoveAt(ids, i);
    assert CategoryIds(rest) == ids[..i] + ids[i + 1..];
  }

  /** `this.categories.map(c => parseInt(c.Id))`. */
  function ParsedIds(categories: seq<Category>): (ns: seq<nat>)
    requires forall i :: 0 <= i < |categories| ==> NumericString(categories[i].id)
    ensures |ns| == |categories|
    ensures forall i :: 0 <= i < |categories| ==> ns[i] == IdValue(categories[i].id)
  {
    seq(|categories|, i requires 0 <= i < |categories| => IdValue(categories[i].id))
  }

  /** `getNextId`: the decimal string of one more than the largest parsed
      identifier ("1" for an empty store); it parses above every stored
      identifier, so no stored category has it. */
  function NextId(categories: seq<Category>): (s: string)
    requires forall i :: 0 <= i < |categories| ==> NumericString(categories[i].id)
    ensures Canonical(s)
    ensures |categories| == 0 ==> s == "1"
    ensures forall i :: 0 <= i < |categories| ==> ParsedIds(categories)[i] < ParseDecimal(s).value
    ensures ParseDecimal(s).value == 1 || ParseDecimal(s).value - 1 in ParsedIds(categories)
    ensures StrId(s) !in CategoryIds(categories)
  {
    var m := MaxOf(ParsedIds(categories));
    DecimalRoundTrip(m + 1);
    DecimalString(m + 1)
  }

  /** The record `create` builds: a fresh identifier, the draft's name and
      colour, and a task count of 0. */
  function NewCategory(id: string, d: CategoryDraft): (c: Category)
    ensures c.id == StrId(id) && c.taskCount == 0
    ensures c.name == d.name && c.color == d.color
  {
    Category(StrId(id), d.name, d.color, 0)
  }

  /** `{ ...stored, ...draft }`: name and colour replaced, identifier and count kept. */
  function Merged(c: Category, d: CategoryDraft): (r: Category)
    ensures r.id == c.id && r.taskCount == c.taskCount
    ensures r.name == d.name && r.color == d.color
  {
    c.(name := d.name, color := d.color)
  }

  class CategoryService {
    var categories: seq<Category>

    ghost predicate Valid()
      reads this
    {
      WellFormed(categories)
    }

    /** The store starts as a copy of the seed records. */
    constructor (seed: seq<Category>)
      requires WellFormed(seed)
      ensures Valid() && categories == seed
    {
      categories := seed;
    }

    /** `getAll`: the stored categories in storage order; the store is untouched. */
    method GetAll() returns (all: seq<Category>)
      ensures all == categories
    {
      all := categories;
    }

    /** `getById`: the first category with the identifier, or "Category not found". */
    method GetById(id: Id) returns (r: Result<Category>)
      ensures r.Ok? <==> id in CategoryIds(categories)
      ensures r.Ok? ==> r.value.id == id && r.value == categories[IndexOf(CategoryIds(categories), id)]
      ensures r.Err? ==> r.message == NotFound
    {
      var i := IndexOf(CategoryIds(categories), id);
      if i == -1 {
        r := Err(NotFound);
      } else {
        r := Ok(categories[i]);
      }
    }

    /** `create`: appends `{Id: getNextId(), name, color, taskCount: 0}` and returns it. */
    method Create(d: CategoryDraft) returns (c: Category)
      requires Valid()
      modifies this
      ensures Valid()
      ensures c == NewCategory(NextId(old(categories)), d)
      ensures c.id !in CategoryIds(old(categories))
      ensures categories == old(categories) + [c]
    {
      var id := NextId(categories);
      c := NewCategory(id, d);
      AppendFresh(CategoryIds(categories), c.id);
      assert CategoryIds(categories + [c]) == CategoryIds(categories) + [c.id];
      categories := categories + [c];
    }

    /** `update`: the category at the identifier's position takes the draft's
        name and colour; position, identifier, count and every other category
        are unchanged. An unknown identifier changes nothing and throws
        "Category not found". */
    method Update(id: Id, d: CategoryDraft) returns (r: Result<Category>)
      requires Valid()
      modifies this
      ensures Valid()
      ensures IndexOf(CategoryIds(old(categories)), id) == -1 ==> r == Err(NotFound) && categories == old(categories)
      ensures var i := IndexOf(CategoryIds(old(categories)), id);
        0 <= i ==> r == Ok(Merged(old(categories)[i], d)) && categories == old(categories)[i := r.value]
    {
      var i := IndexOf(CategoryIds(categories), id);
      if i == -1 {
        r := Err(NotFound);
        return;
      }
      var updated := Merged(categories[i], d);
      assert CategoryIds(categories[i := updated]) == CategoryIds(categories);
      categories := categories[i := updated];
      r := Ok(updated);
    }

    /** `delete`: splices out the category with the identifier and returns it;
        the others keep their order. An unknown identifier changes nothing and
        throws "Category not found". Tasks are not touched: they keep whatever
        reference they held. */
    method Delete(id: Id) returns (r: Result<Category>)
      requires Valid()
      modifies this
      ensures Valid()
      ensures IndexOf(CategoryIds(old(categories)), id) == -1 ==> r == Err(NotFound) && categories == old(categories)
      ensures var i := IndexOf(CategoryIds(old(categories)), id);
        0 <= i ==> r == Ok(old(categories)[i]) && categories == old(categories)[..i] + old(categories)[i + 1..]
      ensures r.Ok? ==> |categories| == |old(categories)| - 1 && id !in CategoryIds(categories)
    {
      var i := IndexOf(CategoryIds(categories), id);
      if i == -1 {
        r := Err(NotFound);
        return;
      }
      SpliceKeepsWellFormed(categories, i);
      r := Ok(categories[i]);
      categories := categories[..i] + categories[i + 1..];
    }
  }
}
