/**
 * The form actions of the category management page
 * (`src/routes/manage/categories/+page.server.ts`): create or rename a
 * category or a subcategory, and delete either one, refused while anything
 * still refers to it. The `categories`, `subcategories` and
 * `transaction_categories` tables are sequences of rows in `CategoryStore`;
 * the database assigns new ids from a counter.
 */
module ManageCategories {
  import opened Js
  import opened Seqs
  import opened Forms

  datatype CategoryRow = CategoryRow(id: int, name: string, userId: string)
  datatype SubcategoryRow = SubcategoryRow(id: int, name: string, categoryId: int)

  /** A row of `transaction_categories`, as far as the guards read it. */
  datatype AllocationRef = AllocationRef(id: int, categoryId: int, subcategoryId: Option<int>)

  /** The database calls of an action, in the order an action can make them. */
  datatype Call = SessionLookup | SubcategoryCheck | AllocationCheck | Write | Fetch

  /** A `fail(status, { error })`, or the refreshed categories with their subcategories. */
  datatype ActionResult = Fail(status: int, error: string) | Listing(categories: seq<CategoryRow>, subcategories: seq<SubcategoryRow>)

  /**
   * `update({ name }).eq('id', id)` on either table: each row whose id, as
   * `idOf` reads it, is `id` becomes `rename` of itself; the others stay.
   */
  function Renamed<R>(rows: seq<R>, id: int, idOf: R -> int, rename: R -> R): (r: seq<R>)
    ensures |r| == |rows|
    ensures forall i :: 0 <= i < |rows| ==> r[i] == if idOf(rows[i]) == id then rename(rows[i]) else rows[i]
  {
    seq(|rows|, i requires 0 <= i < |rows| => if idOf(rows[i]) == id then rename(rows[i]) else rows[i])
  }

  function RenamedCategories(rows: seq<CategoryRow>, id: int, name: string): seq<CategoryRow> {
    Renamed(rows, id, (c: CategoryRow) => c.id, (c: CategoryRow) => c.(name := name))
  }

  function RenamedSubcategories(rows: seq<SubcategoryRow>, id: int, name: string): seq<SubcategoryRow> {
    Renamed(rows, id, (s: SubcategoryRow) => s.id, (s: SubcategoryRow) => s.(name := name))
  }

  /**
   * A category rename keeps every row in its place with its id and owner,
   * so ids stay unique; the row with that id carries the new name and no
   * other row changes. An id that is not in the table leaves it as it was,
   * and a second rename of the same id overrides the first.
   */
  lemma RenameCategoryKeepsTable(rows: seq<CategoryRow>, id: int, name: string, later: string)
    ensures var r := RenamedCategories(rows, id, name);
      && |r| == |rows|
      && (forall i :: 0 <= i < |r| ==> r[i].id == rows[i].id && r[i].userId == rows[i].userId)
      && (forall i :: 0 <= i < |r| && r[i].id == id ==> r[i].name == name)
      && (forall i :: 0 <= i < |r| && r[i].id != id ==> r[i] == rows[i])
      && ((forall i, j :: 0 <= i < j < |rows| ==> rows[i].id != rows[j].id) ==>
            forall i, j :: 0 <= i < j < |r| ==> r[i].id != r[j].id)
      && ((forall i :: 0 <= i < |rows| ==> rows[i].id != id) ==> r == rows)
      && RenamedCategories(r, id, later) == RenamedCategories(rows, id, later)
  {
    var r := RenamedCategories(rows, id, name);
    assert RenamedCategories(r, id, later) == RenamedCategories(rows, id, later) by {
      var a, b := RenamedCategories(r, id, later), RenamedCategories(rows, id, later);
      assert |a| == |b|;
      forall i | 0 <= i < |a| ensures a[i] == b[i] {
      }
    }
  }

  /**
   * A subcategory rename keeps every row in its place under the same
   * category and with the same id, so ids stay unique; only the row with
   * that id is renamed. Renaming an id the table does not hold changes
   * nothing, and the last of two renames of one id is the one that stays.
   */
  lemma RenameSubcategoryKeepsTable(rows: seq<SubcategoryRow>, id: int, name: string, later: string)
    ensures var r := RenamedSubcategories(rows, id, name);
      && |r| == |rows|
      && (forall i :: 0 <= i < |r| ==> r[i].id == rows[i].id && r[i].categoryId == rows[i].categoryId)
      && (forall i :: 0 <= i < |r| ==> r[i].name == if rows[i].id == id then name else rows[i].name)
      && ((forall i, j :: 0 <= i < j < |rows| ==> rows[i].id != rows[j].id) ==>
            forall i, j :: 0 <= i < j < |r| ==> r[i].id != r[j].id)
      && ((forall s :: s in rows ==> s.id != id) ==> r == rows)
      && RenamedSubcategories(r, id, later) == RenamedSubcategories(rows, id, later)
  {
    var r := RenamedSubcategories(rows, id, name);
    if forall s :: s in rows ==> s.id != id {
      assert forall i :: 0 <= i < |rows| ==> rows[i] in rows;
    }
    assert RenamedSubcategories(r, id, later) == RenamedSubcategories(rows, id, later) by {
      var a, b := RenamedSubcategories(r, id, later), RenamedSubcategories(rows, id, later);
      assert |a| == |b|;
      forall i | 0 <= i < |a| ensures a[i] == b[i] {
      }
    }
  }

  predicate HasSubcategories(subs: seq<SubcategoryRow>, categoryId: int) {
    exists i :: 0 <= i < |subs| && subs[i].categoryId == categoryId
  }

  predicate CategoryInUse(allocs: seq<AllocationRef>, categoryId: int) {
    exists i :: 0 <= i < |allocs| && allocs[i].categoryId == categoryId
  }

  predicate SubcategoryInUse(allocs: seq<AllocationRef>, subcategoryId: int) {
    exists i :: 0 <= i < |allocs| && allocs[i].subcategoryId == Some(subcategoryId)
  }

  class CategoryStore {
    var categories: seq<CategoryRow>
    var subcategories: seq<SubcategoryRow>
    var allocations: seq<AllocationRef>
    var nextCategoryId: int
    var nextSubcategoryId: int

    /** Ids are unique in each table and lie below the counter that hands out the next one. */
    ghost predicate Valid()
      reads this
    {
      && (forall i, j :: 0 <= i < j < |categories| ==> categories[i].id != categories[j].id)
      && (forall i :: 0 <= i < |categories| ==> categories[i].id < nextCategoryId)
      && (forall i, j :: 0 <= i < j < |subcategories| ==> subcategories[i].id != subcategories[j].id)
      && (forall i :: 0 <= i < |subcategories| ==> subcategories[i].id < nextSubcategoryId)
    }

    constructor ()
      ensures Valid() && categories == [] && subcategories == [] && allocations == []
    {
      categories, subcategories, allocations := [], [], [];
      nextCategoryId, nextSubcategoryId := 1, 1;
    }

    /** `get_categories_with_subcategories` after the write. */
    function Listed(): ActionResult
      reads this
    {
      Listing(categories, subcategories)
    }

    /**
     * `upsertCategory`. A blank name fails with 400 and a missing session
     * with 401, before anything is written; id `'0'` inserts a category owned
     * by the session's user, any other id renames that one row. A failed
     * write changes nothing; a failed refresh comes after the write.
     */
    method UpsertCategory(id: Option<string>, name: Option<string>, session: Option<string>, failing: set<Call>)
      returns (r: ActionResult)
      requires Valid()
      modifies this
      ensures Valid()
      ensures subcategories == old(subcategories) && allocations == old(allocations)
      ensures nextSubcategoryId == old(nextSubcategoryId)
      ensures nextCategoryId == if Truthy(Trimmed(name)) && SessionLookup !in failing && session.Some? && Write !in failing && id == Some("0")
                                then old(nextCategoryId) + 1 else old(nextCategoryId)
      ensures !Truthy(Trimmed(name)) ==> r == Fail(400, "Category name is required") && unchanged(this)
      ensures Truthy(Trimmed(name)) && (SessionLookup in failing || (session.Some? && Write in failing)) ==>
        r == Fail(500, "Failed to save category") && unchanged(this)
      ensures Truthy(Trimmed(name)) && SessionLookup !in failing && session.None? ==> r == Fail(401, "Unauthorized") && unchanged(this)
      ensures Truthy(Trimmed(name)) && SessionLookup !in failing && session.Some? && Write !in failing ==>
        && (id == Some("0") ==>
              categories == old(categories) + [CategoryRow(old(nextCategoryId), Trimmed(name).value, session.value)])
        && (id != Some("0") && RowId(id).Some? ==> categories == RenamedCategories(old(categories), RowId(id).value, Trimmed(name).value))
        && (id != Some("0") && RowId(id).None? ==> r == Fail(500, "Failed to save category") && unchanged(this))
        && (id == Some("0") || RowId(id).Some? ==> r == if Fetch in failing then Fail(500, "Failed to save category") else Listed())
    {
      var trimmed := Trimmed(name);
      if !Truthy(trimmed) {
        return Fail(400, "Category name is required");
      }
      if SessionLookup in failing {
        return Fail(500, "Failed to save category");
      }
      if session.None? {
        return Fail(401, "Unauthorized");
      }
      if Write in failing {
        return Fail(500, "Failed to save category");
      }
      if id == Some("0") {
        InsertCategory(trimmed.value, session.value);
      } else {
        var rowId := RowId(id);
        if rowId.None? {
          return Fail(500, "Failed to save category");
        }
        RenameCategory(rowId.value, trimmed.value);
      }
      if Fetch in failing {
        return Fail(500, "Failed to save category");
      }
      return Listed();
    }

    /**
     * `upsertSubcategory`. A blank name or a missing category id fails with
     * 400; without an id a subcategory is inserted under the category id,
     * with one only that row is renamed. No session is asked for.
     */
    method UpsertSubcategory(id: Option<string>, categoryId: Option<string>, name: Option<string>, failing: set<Call>)
      returns (r: ActionResult)
      requires Valid()
      modifies this
      ensures Valid()
      ensures categories == old(categories) && allocations == old(allocations)
      ensures nextCategoryId == old(nextCategoryId)
      ensures nextSubcategoryId ==
        if Truthy(Trimmed(name)) && Truthy(categoryId) && Write !in failing && !Truthy(id) && RowId(categoryId).Some?
        then old(nextSubcategoryId) + 1 else old(nextSubcategoryId)
      ensures !Truthy(Trimmed(name)) || !Truthy(categoryId) ==>
        r == Fail(400, "Subcategory name and category ID are required") && unchanged(this)
      ensures Truthy(Trimmed(name)) && Truthy(categoryId) && Write in failing ==>
        r == Fail(500, "Failed to save subcategory") && unchanged(this)
      ensures Truthy(Trimmed(name)) && Truthy(categoryId) && Write !in failing ==>
        var target := if Truthy(id) then RowId(id) else RowId(categoryId);
        && (target.None? ==> r == Fail(500, "Failed to save subcategory") && unchanged(this))
        && (target.Some? && !Truthy(id) ==>
              subcategories == old(subcategories) + [SubcategoryRow(old(nextSubcategoryId), Trimmed(name).value, target.value)])
        && (target.Some? && Truthy(id) ==> subcategories == RenamedSubcategories(old(subcategories), target.value, Trimmed(name).value))
        && (target.Some? ==> r == if Fetch in failing then Fail(500, "Failed to save subcategory") else Listed())
    {
      var trimmed := Trimmed(name);
      if !Truthy(trimmed) || !Truthy(categoryId) {
        return Fail(400, "Subcategory name and category ID are required");
      }
      if Write in failing {
        return Fail(500, "Failed to save subcategory");
      }
      if !Truthy(id) {
        var parent := RowId(categoryId);
        if parent.None? {
          return Fail(500, "Failed to save subcategory");
        }
        InsertSubcategory(trimmed.value, parent.value);
      } else {
        var rowId := RowId(id);
        if rowId.None? {
          return Fail(500, "Failed to save subcategory");
        }
        RenameSubcategory(rowId.value, trimmed.value);
      }
      if Fetch in failing {
        return Fail(500, "Failed to save subcategory");
      }
      return Listed();
    }

    /** The insert of `upsertCategory`: a new category owned by `owner`, with the next id. */
    method InsertCategory(name: string, owner: string)
      requires Valid()
      modifies this
      ensures Valid()
      ensures categories == old(categories) + [CategoryRow(old(nextCategoryId), name, owner)]
      ensures nextCategoryId == old(nextCategoryId) + 1
      ensures subcategories == old(subcategories) && allocations == old(allocations) && nextSubcategoryId == old(nextSubcategoryId)
    {
      categories := categories + [CategoryRow(nextCategoryId, name, owner)];
      nextCategoryId := nextCategoryId + 1;
    }

    /** The update of `upsertCategory`: the row with `id` takes the new name. */
    method RenameCategory(id: int, name: string)
      requires Valid()
      modifies this
      ensures Valid()
      ensures categories == RenamedCategories(old(categories), id, name)
      ensures subcategories == old(subcategories) && allocations == old(allocations)
      ensures nextCategoryId == old(nextCategoryId) && nextSubcategoryId == old(nextSubcategoryId)
    {
      var renamed := RenamedCategories(categories, id, name);
      assert forall i :: 0 <= i < |renamed| ==> renamed[i].id == categories[i].id;
      categories := renamed;
    }

    /** The insert of `upsertSubcategory`: a new row under `parent`, with the next id. */
    method InsertSubcategory(name: string, parent: int)
      requires Valid()
      modifies this
      ensures Valid()
      ensures subcategories == old(subcategories) + [SubcategoryRow(old(nextSubcategoryId), name, parent)]
      ensures nextSubcategoryId == old(nextSubcategoryId) + 1
      ensures categories == old(categories) && allocations == old(allocations) && nextCategoryId == old(nextCategoryId)
    {
      subcategories := subcategories + [SubcategoryRow(nextSubcategoryId, name, parent)];
      nextSubcategoryId := nextSubcategoryId + 1;
    }

    /** The update of `upsertSubcategory`: the row with `id` takes the new name. */
    method RenameSubcategory(id: int, name: string)
      requires Valid()
      modifies this
      ensures Valid()
      ensures subcategories == RenamedSubcategories(old(subcategories), id, name)
      ensures categories == old(categories) && allocations == old(allocations)
      ensures nextCategoryId == old(nextCategoryId) && nextSubcategoryId == old(nextSubcategoryId)
    {
      var renamed := RenamedSubcategories(subcategories, id, name);
      assert forall i :: 0 <= i < |renamed| ==> renamed[i].id == subcategories[i].id;
      subcategories := renamed;
    }

    /**
     * `deleteCategory`. The subcategory check comes first, then the
     * allocation check; either refusal leaves the category in place.
     * Otherwise exactly the rows with that id are removed.
     */
    method DeleteCategory(id: Option<string>, failing: set<Call>) returns (r: ActionResult)
      requires Valid()
      modifies this
      ensures Valid()
      ensures subcategories == old(subcategories) && allocations == old(allocations)
      ensures nextCategoryId == old(nextCategoryId) && nextSubcategoryId == old(nextSubcategoryId)
      ensures !Truthy(id) ==> r == Fail(400, "Category ID is required") && unchanged(this)
      ensures Truthy(id) && (RowId(id).None? || SubcategoryCheck in failing) ==>
        r == Fail(500, "Failed to delete category") && unchanged(this)
      ensures Truthy(id) && RowId(id).Some? && SubcategoryCheck !in failing ==>
        var n := RowId(id).value;
        && (HasSubcategories(subcategories, n) ==> r == Fail(400, "Cannot delete category with subcategories") && unchanged(this))
        && (!HasSubcategories(subcategories, n) && AllocationCheck in failing ==> r == Fail(500, "Failed to delete category") && unchanged(this))
        && (!HasSubcategories(subcategories, n) && AllocationCheck !in failing && CategoryInUse(allocations, n) ==>
              r == Fail(400, "Cannot delete category with associated transactions") && unchanged(this))
        && (!HasSubcategories(subcategories, n) && AllocationCheck !in failing && !CategoryInUse(allocations, n) ==>
              && (Write in failing ==> r == Fail(500, "Failed to delete category") && unchanged(this))
              && (Write !in failing ==>
                    && categories == Filter(old(categories), (c: CategoryRow) => c.id != n)
                    && r == if Fetch in failing then Fail(500, "Failed to delete category") else Listed()))
      ensures forall c :: c in old(categories) && (HasSubcategories(subcategories, c.id) || CategoryInUse(allocations, c.id)) ==> c in categories
    {
      if !Truthy(id) {
        return Fail(400, "Category ID is required");
      }
      var rowId := RowId(id);
      if rowId.None? || SubcategoryCheck in failing {
        return Fail(500, "Failed to delete category");
      }
      var n := rowId.value;
      if HasSubcategories(subcategories, n) {
        return Fail(400, "Cannot delete category with subcategories");
      }
      if AllocationCheck in failing {
        return Fail(500, "Failed to delete category");
      }
      if CategoryInUse(allocations, n) {
        return Fail(400, "Cannot delete category with associated transactions");
      }
      if Write in failing {
        return Fail(500, "Failed to delete category");
      }
      RemoveCategory(n);
      if Fetch in failing {
        return Fail(500, "Failed to delete category");
      }
      return Listed();
    }

    /**
     * `deleteSubcategory`: refused while an allocation refers to the
     * subcategory; otherwise exactly the rows with that id are removed.
     */
    method DeleteSubcategory(id: Option<string>, failing: set<Call>) returns (r: ActionResult)
      requires Valid()
      modifies this
      ensures Valid()
      ensures categories == old(categories) && allocations == old(allocations)
      ensures nextCategoryId == old(nextCategoryId) && nextSubcategoryId == old(nextSubcategoryId)
      ensures !Truthy(id) ==> r == Fail(400, "Subcategory ID is required") && unchanged(this)
      ensures Truthy(id) && (RowId(id).None? || AllocationCheck in failing) ==>
        r == Fail(500, "Failed to delete subcategory") && unchanged(this)
      ensures Truthy(id) && RowId(id).Some? && AllocationCheck !in failing ==>
        var n := RowId(id).value;
        && (SubcategoryInUse(allocations, n) ==> r == Fail(400, "Cannot delete subcategory with associated transactions") && unchanged(this))
        && (!SubcategoryInUse(allocations, n) && Write in failing ==> r == Fail(500, "Failed to delete subcategory") && unchanged(this))
        && (!SubcategoryInUse(allocations, n) && Write !in failing ==>
              && subcategories == Filter(old(subcategories), (s: SubcategoryRow) => s.id != n)
              && r == if Fetch in failing then Fail(500, "Failed to delete subcategory") else Listed())
      ensures forall s :: s in old(subcategories) && SubcategoryInUse(allocations, s.id) ==> s in subcategories
    {
      if !Truthy(id) {
        return Fail(400, "Subcategory ID is required");
      }
      var rowId := RowId(id);
      if rowId.None? || AllocationCheck in failing {
        return Fail(500, "Failed to delete subcategory");
      }
      var n := rowId.value;
      if SubcategoryInUse(allocations, n) {
        return Fail(400, "Cannot delete subcategory with associated transactions");
      }
      if Write in failing {
        return Fail(500, "Failed to delete subcategory");
      }
      RemoveSubcategory(n);
      if Fetch in failing {
        return Fail(500, "Failed to delete subcategory");
      }
      return Listed();
    }

    /** The delete of `deleteCategory`: exactly the rows with id `n` go. */
    method RemoveCategory(n: int)
      requires Valid()
      modifies this
      ensures Valid()
      ensures categories == Filter(old(categories), (c: CategoryRow) => c.id != n)
      ensures forall c :: c in old(categories) && c.id != n ==> c in categories
      ensures subcategories == old(subcategories) && allocations == old(allocations)
      ensures nextCategoryId == old(nextCategoryId) && nextSubcategoryId == old(nextSubcategoryId)
    {
      var before := categories;
      categories := Filter(categories, (c: CategoryRow) => c.id != n);
      KeptCategories(before, n);
    }

    /** The delete of `deleteSubcategory`: exactly the rows with id `n` go. */
    method RemoveSubcategory(n: int)
      requires Valid()
      modifies this
      ensures Valid()
      ensures subcategories == Filter(old(subcategories), (s: SubcategoryRow) => s.id != n)
      ensures forall s :: s in old(subcategories) && s.id != n ==> s in subcategories
      ensures categories == old(categories) && allocations == old(allocations)
      ensures nextCategoryId == old(nextCategoryId) && nextSubcategoryId == old(nextSubcategoryId)
    {
      var before := subcategories;
      subcategories := Filter(subcategories, (s: SubcategoryRow) => s.id != n);
      KeptSubcategories(before, n);
    }
  }

  /** Removing the rows of one id keeps every other row and the uniqueness of ids. */
  lemma KeptCategories(rows: seq<CategoryRow>, n: int)
    requires forall i, j :: 0 <= i < j < |rows| ==> rows[i].id != rows[j].id
    ensures var r := Filter(rows, (c: CategoryRow) => c.id != n);
      && (forall i, j :: 0 <= i < j < |r| ==> r[i].id != r[j].id)
      && (forall c :: c in rows && c.id != n ==> c in r)
      && (forall c :: c in r ==> c in rows && c.id != n)
  {
    FilterKeepsKeysDistinct(rows, (c: CategoryRow) => c.id != n, (c: CategoryRow) => c.id);
  }

  lemma KeptSubcategories(rows: seq<SubcategoryRow>, n: int)
    requires forall i, j :: 0 <= i < j < |rows| ==> rows[i].id != rows[j].id
    ensures var r := Filter(rows, (s: SubcategoryRow) => s.id != n);
      && (forall i, j :: 0 <= i < j < |r| ==> r[i].id != r[j].id)
      && (forall s :: s in rows && s.id != n ==> s in r)
      && (forall s :: s in r ==> s in rows && s.id != n)
  {
    FilterKeepsKeysDistinct(rows, (s: SubcategoryRow) => s.id != n, (s: SubcategoryRow) => s.id);
  }
}
