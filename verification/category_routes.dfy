/**
 * The category routes (server/src/routes/categories.ts): list, create, update
 * and delete over the category table, with deletion guarded by the activity
 * table. The UNIQUE constraint on names lives in the database schema, which is
 * not part of this model: whether the store refuses a write is a parameter.
 */
module CategoryRoutes {
  import opened Wrappers
  import opened Text
  import opened Ordering
  import opened Schemas
  import opened Store

  const CategoryNotFound: Reply := Failed(404, "Category not found", None)
  const NameTaken: Reply := Failed(409, "Category name already exists", None)

  /** The texts around the count in the 409 details. */
  const CategoryCountLead: string := "This category has "
  const CategoryCountTail: string := " activity(ies)"

  /** The 409 answer of a delete refused because `count` activities still use the category. */
  function CategoryInUse(count: nat): (r: Reply)
    ensures r.Failed? && r.status == 409 && r.details.Some?
    ensures r.details.value == CategoryCountLead + DecimalString(count) + CategoryCountTail
  {
    Failed(409, "Cannot delete category with existing activities", Some(CategoryCountLead + DecimalString(count) + CategoryCountTail))
  }

  /**
   * The details of the 409 answer carry the count: cut between the fixed texts
   * it reads back as `count`, so different counts give different answers.
   */
  lemma CategoryInUseReadsBack(count: nat, other: nat)
    ensures var d := CategoryInUse(count).details.value;
      && |d| >= |CategoryCountLead| + |CategoryCountTail|
      && d[..|CategoryCountLead|] == CategoryCountLead
      && d[|d| - |CategoryCountTail|..] == CategoryCountTail
      && AllDigits(d[|CategoryCountLead|..|d| - |CategoryCountTail|])
      && DigitsValue(d[|CategoryCountLead|..|d| - |CategoryCountTail|]) == count
    ensures CategoryInUse(count) == CategoryInUse(other) <==> count == other
  {
    NumberBetween(CategoryCountLead, count, CategoryCountTail);
    NumberBetween(CategoryCountLead, other, CategoryCountTail);
    DecimalRoundTrip(count);
    DecimalRoundTrip(other);
  }

  /** The ids of the activities that reference category `id`. */
  function ActivitiesOf(activities: map<int, Activity>, id: int): set<int> {
    set k | k in activities && activities[k].categoryId == id
  }

  // ----- GET / -----

  /** Categories of the default user or of no user. */
  function CategoryListing(categories: map<int, Category>): set<Category> {
    set k | k in categories && (categories[k].userId == Some(DefaultUser) || categories[k].userId.None?) :: categories[k]
  }

  function CategoryOrder(c: Category): SortKey {
    SortKey(c.name, "")
  }

  /** `GET /api/categories`: ordered by name. */
  method ListCategories(db: Db) returns (rows: seq<Category>)
    ensures SortedBy(rows, CategoryOrder)
    ensures multiset(rows) == multiset(CategoryListing(db.categories))
  {
    var found := CategoryListing(db.categories);
    var unordered := Rows(found);
    rows := Sort(unordered, CategoryOrder);
    SortSorted(unordered, CategoryOrder);
  }

  /** A category is listed exactly when it is stored and belongs to the default user or to no user. */
  lemma CategoryListingMembers(categories: map<int, Category>, c: Category)
    ensures c in CategoryListing(categories) ==>
      c in categories.Values && (c.userId == Some(DefaultUser) || c.userId.None?)
    ensures forall k :: k in categories && (categories[k].userId == Some(DefaultUser) || categories[k].userId.None?) ==>
      categories[k] in CategoryListing(categories)
  {
    if c in CategoryListing(categories) {
      var k :| k in categories && (categories[k].userId == Some(DefaultUser) || categories[k].userId.None?) && c == categories[k];
      assert categories[k] in categories.Values;
    }
  }

  // ----- POST / -----

  function NewCategory(id: int, body: CategoryBody): Category
    requires ValidCreateCategory(body)
  {
    Category(id, body.name.value, body.color.value, Some(DefaultUser))
  }

  /**
   * `POST /api/categories`: validate, insert. `storeRejects` is the store's
   * UNIQUE failure on the name, answered 409.
   * `rowId` is the id SQLite gives the inserted row; which free id it picks is
   * up to the database, so it is a parameter here.
   */
  method PostCategory(db: Db, body: CategoryBody, storeRejects: bool, rowId: int) returns (reply: Reply)
    requires db.Ids()
    requires rowId > 0 && rowId !in db.categories
    modifies db
    ensures db.Ids()
    ensures old(db.RefsOk()) ==> db.RefsOk()
    ensures old(db.RowsValid()) ==> db.RowsValid()
    ensures old(db.NoOverlap()) ==> db.NoOverlap()
    ensures reply.Failed? ==> unchanged(db)
    ensures !ValidCreateCategory(body) ==> reply == ValidationFailed
    ensures ValidCreateCategory(body) && storeRejects ==> reply == NameTaken
    ensures ValidCreateCategory(body) && !storeRejects ==> reply == Created(rowId)
    ensures reply.Created? ==>
      && db.categories == old(db.categories)[reply.id := NewCategory(reply.id, body)]
      && reply.id !in old(db.categories)
      && db.activities == old(db.activities) && db.sessions == old(db.sessions)
  {
    if !ValidCreateCategory(body) {
      return ValidationFailed;
    }
    if storeRejects {
      return NameTaken;
    }
    var id := rowId;
    db.categories := db.categories[id := NewCategory(id, body)];
    reply := Created(id);
  }

  // ----- PUT /:id -----

  /** One `column = ?` entry of the UPDATE statement. */
  datatype CategoryAssignment = SetName(name: string) | SetColor(color: string)

  function Assign(row: Category, a: CategoryAssignment): Category {
    match a
    case SetName(v) => row.(name := v)
    case SetColor(v) => row.(color := v)
  }

  function AssignAll(row: Category, updates: seq<CategoryAssignment>): Category
    decreases |updates|
  {
    if |updates| == 0 then row else AssignAll(Assign(row, updates[0]), updates[1..])
  }

  /** Neither key the handler writes is given (`user_id` alone is ignored). */
  predicate NothingToWrite(patch: CategoryBody) {
    patch.name.Absent? && patch.color.Absent?
  }

  /** The row after the update: given keys replace the stored values, `id` and `user_id` stay. */
  function Patched(row: Category, patch: CategoryBody): Category {
    Category(
      row.id,
      if patch.name.Given? then patch.name.value else row.name,
      if patch.color.Given? then patch.color.value else row.color,
      row.userId)
  }

  /** The `updates` list, one push per given key. */
  method CategoryUpdates(patch: CategoryBody) returns (updates: seq<CategoryAssignment>)
    ensures |updates| == 0 <==> NothingToWrite(patch)
    ensures forall row :: AssignAll(row, updates) == Patched(row, patch)
  {
    updates := [];
    if patch.name.Given? {
      updates := updates + [SetName(patch.name.value)];
    }
    if patch.color.Given? {
      updates := updates + [SetColor(patch.color.value)];
    }
    forall row ensures AssignAll(row, updates) == Patched(row, patch) {
      if patch.name.Given? && patch.color.Given? {
        var named := Assign(row, SetName(patch.name.value));
        assert updates[1..] == [SetColor(patch.color.value)];
        assert AssignAll(named, [SetColor(patch.color.value)]) == Assign(named, SetColor(patch.color.value));
      }
    }
  }

  /** A patch carrying only `user_id` passes the schema and writes nothing, so it is answered 400. */
  lemma UserIdOnlyPatchWritesNothing()
    ensures ValidUpdateCategory(CategoryBody(Absent, Absent, Given(None)))
    ensures NothingToWrite(CategoryBody(Absent, Absent, Given(None)))
  {
  }

  /** `PUT /api/categories/:id`. */
  method PutCategory(db: Db, id: int, patch: CategoryBody, storeRejects: bool) returns (reply: Reply)
    requires db.Ids()
    modifies db
    ensures db.Ids()
    ensures old(db.RefsOk()) ==> db.RefsOk()
    ensures old(db.RowsValid()) ==> db.RowsValid()
    ensures old(db.NoOverlap()) ==> db.NoOverlap()
    ensures reply.Failed? ==> unchanged(db)
    ensures !ValidUpdateCategory(patch) ==> reply == ValidationFailed
    ensures ValidUpdateCategory(patch) && id !in old(db.categories) ==> reply == CategoryNotFound
    ensures ValidUpdateCategory(patch) && id in old(db.categories) ==>
      && (NothingToWrite(patch) ==> reply == NoFieldsToUpdate)
      && (!NothingToWrite(patch) && storeRejects ==> reply == NameTaken)
      && (!NothingToWrite(patch) && !storeRejects ==> reply == Updated(id))
    ensures reply.Updated? ==>
      && db.categories == old(db.categories)[id := Patched(old(db.categories[id]), patch)]
      && db.activities == old(db.activities) && db.sessions == old(db.sessions)
  {
    if !ValidUpdateCategory(patch) {
      return ValidationFailed;
    }
    if id !in db.categories {
      return CategoryNotFound;
    }
    var updates := CategoryUpdates(patch);
    if |updates| == 0 {
      return NoFieldsToUpdate;
    }
    if storeRejects {
      return NameTaken;
    }
    db.categories := db.categories[id := AssignAll(db.categories[id], updates)];
    reply := Updated(id);
  }

  // ----- DELETE /:id -----

  /** `DELETE /api/categories/:id`: refused while any activity uses the category. */
  method DeleteCategory(db: Db, id: int) returns (reply: Reply)
    requires db.Ids()
    modifies db
    ensures db.Ids()
    ensures old(db.RefsOk()) ==> db.RefsOk()
    ensures old(db.RowsValid()) ==> db.RowsValid()
    ensures old(db.NoOverlap()) ==> db.NoOverlap()
    ensures reply.Failed? ==> unchanged(db)
    ensures id !in old(db.categories) ==> reply == CategoryNotFound
    ensures id in old(db.categories) ==>
      var count := |ActivitiesOf(old(db.activities), id)|;
      && (count > 0 ==> reply == CategoryInUse(count))
      && (count == 0 ==> reply == Deleted)
    ensures reply == Deleted ==>
      && db.categories == old(db.categories) - {id}
      && db.activities == old(db.activities) && db.sessions == old(db.sessions)
  {
    if id !in db.categories {
      return CategoryNotFound;
    }
    var count := |ActivitiesOf(db.activities, id)|;
    if count > 0 {
      return CategoryInUse(count);
    }
    forall k | k in db.activities ensures db.activities[k].categoryId != id {
      assert k !in ActivitiesOf(db.activities, id);
    }
    db.categories := db.categories - {id};
    reply := Deleted;
  }
}
