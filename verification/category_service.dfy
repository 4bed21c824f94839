/**
 * The category service's guards: the accepted category types, the parent check
 * on create and update (same owner, not itself, not its own child), and the
 * delete guards (default, children, use by transactions) in their fixed order.
 */
module CategoryService {
  import opened Wrappers
  import opened Models
  import CR = CategoryRepository

  datatype CategoryError =
    | InvalidType
    | ParentNotFound
    | CategoryNotFound
    | DefaultCategory
    | OwnParent
    | ChildAsParent
    | HasChildren
    | UsedByTransactions
    | StoreFailed
    | NothingDeleted

  /** The category types the service accepts. */
  predicate ValidKind(kind: string) {
    kind == "income" || kind == "expense" || kind == "both"
  }

  /**
   * The store round trips of a category call, any of which may fail: the lookup of
   * the category, the lookup of a named parent, the count of its children, the count
   * of its transactions, and the write. A call is given the set of trips that fail.
   */
  datatype Trip = CategoryLookup | ParentLookup | ChildCount | TxCount | Write

  /** A named parent (a non-empty id) is looked up whoever owns it, then must be the caller's. */
  function CheckParent(cats: seq<Category>, owner: string, parentId: Option<string>, fails: set<Trip>): (r: Result<(), CategoryError>)
    ensures r.Failure? ==> r.error == ParentNotFound || r.error == StoreFailed
    ensures r == Failure(StoreFailed) <==> parentId.Some? && parentId.value != "" && ParentLookup in fails
  {
    if parentId.None? || parentId.value == "" then Success(())
    else if ParentLookup in fails then Failure(StoreFailed)
    else match CR.GetByIDAnyOwner(cats, parentId.value)
      case None => Failure(ParentNotFound)
      case Some(parent) => if parent.userId != owner then Failure(ParentNotFound) else Success(())
  }

  /** With distinct ids, the parent check accepts exactly the parents the caller owns, when their lookup goes through. */
  lemma {:induction false} CheckParentMeaning(cats: seq<Category>, owner: string, parentId: Option<string>, fails: set<Trip>)
    requires CR.UniqueIds(cats)
    ensures CheckParent(cats, owner, parentId, fails).Success? <==>
      parentId.None? || parentId.value == "" || (ParentLookup !in fails && CR.GetByID(cats, parentId.value, owner).Some?)
  {
    if parentId.Some? && parentId.value != "" {
      CR.AnyOwnerAgrees(cats, parentId.value, owner);
    }
  }

  /**
   * CreateCategory: the type must be income, expense or both, and a named parent
   * must be the caller's; then the repository creates the category.
   */
  function CreateCategory(cats: seq<Category>, owner: string, req: CreateCategoryRequest, newId: string, fails: set<Trip>)
    : (r: Result<CR.Created, CategoryError>)
    ensures !ValidKind(req.kind) ==> r == Failure(InvalidType)
    ensures ValidKind(req.kind) && CheckParent(cats, owner, req.parentId, fails).Failure? ==>
      r == Failure(CheckParent(cats, owner, req.parentId, fails).error)
    ensures r.Success? <==>
      ValidKind(req.kind) && CheckParent(cats, owner, req.parentId, fails).Success? && Write !in fails && !CR.IdUsed(cats, newId)
    ensures r.Success? ==> r.value == CR.Create(cats, owner, req, newId, false).value
  {
    if !ValidKind(req.kind) then Failure(InvalidType)
    else if CheckParent(cats, owner, req.parentId, fails).Failure? then Failure(CheckParent(cats, owner, req.parentId, fails).error)
    else match CR.Create(cats, owner, req, newId, Write in fails)
      case Failure(_) => Failure(StoreFailed)
      case Success(c) => Success(c)
  }

  /** Every created category has an accepted type and, with distinct ids, a parent of the same owner or none. */
  lemma {:induction false} CreatedCategoryWellFormed(cats: seq<Category>, owner: string, req: CreateCategoryRequest, newId: string, fails: set<Trip>)
    requires CR.UniqueIds(cats)
    requires CreateCategory(cats, owner, req, newId, fails).Success?
    ensures var c := CreateCategory(cats, owner, req, newId, fails).value.category;
      && ValidKind(c.kind) && c.userId == owner && !c.isDefault
      && (c.parentId.Some? && c.parentId.value != "" ==> CR.GetByID(cats, c.parentId.value, owner).Some?)
  {
    CheckParentMeaning(cats, owner, req.parentId, fails);
  }

  /**
   * UpdateCategory: the category must exist and not be a default one; a supplied
   * type must be accepted; a named parent must not be the category itself, must be
   * the caller's, and must not have the category as its own parent. Longer cycles
   * are not looked for.
   */
  function UpdateCategory(cats: seq<Category>, id: string, owner: string, p: CategoryPatch, fails: set<Trip>)
    : (r: Result<CR.Updated, CategoryError>)
    ensures CategoryLookup in fails ==> r == Failure(StoreFailed)
    ensures CategoryLookup !in fails && CR.GetByID(cats, id, owner).None? ==> r == Failure(CategoryNotFound)
    ensures CategoryLookup !in fails && CR.GetByID(cats, id, owner).Some? && CR.GetByID(cats, id, owner).value.isDefault ==>
      r == Failure(DefaultCategory)
    ensures r.Success? ==> r.value == CR.Update(cats, id, owner, p, false).value
  {
    if CategoryLookup in fails then Failure(StoreFailed)
    else match CR.GetByID(cats, id, owner)
    case None => Failure(CategoryNotFound)
    case Some(existing) =>
      if existing.isDefault then Failure(DefaultCategory)
      else if p.kind.Some? && !ValidKind(p.kind.value) then Failure(InvalidType)
      else if p.parentId.Some? && p.parentId.value != "" && p.parentId.value == id then Failure(OwnParent)
      else if CheckParent(cats, owner, p.parentId, fails).Failure? then Failure(CheckParent(cats, owner, p.parentId, fails).error)
      else if p.parentId.Some? && p.parentId.value != "" && CR.GetByIDAnyOwner(cats, p.parentId.value).value.parentId == Some(id) then
        Failure(ChildAsParent)
      else match CR.Update(cats, id, owner, p, Write in fails)
        case Failure(_) => Failure(StoreFailed)
        case Success(u) => Success(u)
  }

  /**
   * What a successful update guarantees: the category was the caller's and not a
   * default one; its type, if changed, is accepted; and a new parent is neither the
   * category itself nor one of its children, and belongs to the caller.
   */
  lemma {:induction false} UpdateAccepted(cats: seq<Category>, id: string, owner: string, p: CategoryPatch, fails: set<Trip>)
    requires CR.UniqueIds(cats)
    requires UpdateCategory(cats, id, owner, p, fails).Success?
    ensures var existing := CR.GetByID(cats, id, owner);
      && existing.Some? && !existing.value.isDefault && CategoryLookup !in fails && Write !in fails
      && (p.kind.Some? ==> ValidKind(p.kind.value))
      && (p.parentId.Some? && p.parentId.value != "" ==>
            && p.parentId.value != id
            && CR.GetByID(cats, p.parentId.value, owner).Some?
            && CR.GetByID(cats, p.parentId.value, owner).value.parentId != Some(id))
      && UpdateCategory(cats, id, owner, p, fails).value.category == Some(CR.PatchCategory(existing.value, p))
  {
    CheckParentMeaning(cats, owner, p.parentId, fails);
    if p.parentId.Some? && p.parentId.value != "" {
      CR.AnyOwnerAgrees(cats, p.parentId.value, owner);
    }
  }

  /** The parent of the caller's category `id`, if it names one. */
  function ParentOf(cats: seq<Category>, id: string, owner: string): Option<string> {
    match CR.GetByID(cats, id, owner)
    case None => None
    case Some(c) => c.parentId
  }

  /** Three of the caller's categories: a at the top, b under a, c under b. */
  function Chain(): seq<Category> {
    [Category("a", "u", "A", "expense", None, None, None, false),
     Category("b", "u", "B", "expense", Some("a"), None, None, false),
     Category("c", "u", "C", "expense", Some("b"), None, None, false)]
  }

  /** The patch that makes c the parent. */
  function ParentC(): CategoryPatch {
    CategoryPatch(None, None, Some("c"), None, None)
  }

  /** Making c the parent of a passes every check and patches a alone. */
  lemma ChainUpdate()
    ensures var cats := Chain();
      UpdateCategory(cats, "a", "u", ParentC(), {})
        == Success(CR.Updated([CR.PatchCategory(cats[0], ParentC()), cats[1], cats[2]], Some(CR.PatchCategory(cats[0], ParentC()))))
  {
    var cats := Chain();
    var a, b, c := cats[0], cats[1], cats[2];
    assert "a"[0] != "b"[0] && "a"[0] != "c"[0] && "b"[0] != "c"[0];
    assert CR.GetByID(cats, "a", "u") == Some(a);
    assert CR.GetByIDAnyOwner(cats, "c") == Some(c);
    var store := CR.PatchOwned(cats, "a", "u", ParentC());
    assert store == [CR.PatchCategory(a, ParentC()), b, c];
  }

  /**
   * Only cycles of length one and two are refused: with a above b above c, making c
   * the parent of a is accepted and closes the cycle a, c, b, a.
   */
  lemma ThreeCycleAccepted()
    ensures var r := UpdateCategory(Chain(), "a", "u", ParentC(), {});
      && r.Success?
      && ParentOf(r.value.store, "a", "u") == Some("c")
      && ParentOf(r.value.store, "c", "u") == Some("b")
      && ParentOf(r.value.store, "b", "u") == Some("a")
  {
    ChainUpdate();
    PatchedChainParents();
  }

  /** After the patch: a's parent is c, c's is b and b's is a. */
  lemma PatchedChainParents()
    ensures var cats := Chain();
      var store := [CR.PatchCategory(cats[0], ParentC()), cats[1], cats[2]];
      && ParentOf(store, "a", "u") == Some("c")
      && ParentOf(store, "c", "u") == Some("b")
      && ParentOf(store, "b", "u") == Some("a")
  {
    var cats := Chain();
    var a', b, c := CR.PatchCategory(cats[0], ParentC()), cats[1], cats[2];
    var store := [a', b, c];
    assert "a"[0] != "b"[0] && "a"[0] != "c"[0] && "b"[0] != "c"[0];
    assert store[1..] == [b, c] && store[2..] == [c];
    assert CR.GetByID(store, "a", "u") == Some(a');
    assert CR.GetByID(store, "b", "u") == CR.GetByID([b, c], "b", "u") == Some(b);
    assert CR.GetByID(store, "c", "u") == CR.GetByID([b, c], "c", "u") == CR.GetByID([c], "c", "u") == Some(c);
  }

  // ---------------------------------------------------------------------------
  // Use by transactions and delete

  /** CountByCategoryID: the caller's transactions filed under the category. */
  function CountByCategory(txs: seq<Transaction>, id: string, owner: string): (r: nat)
    ensures r == 0 <==> forall t | t in txs :: !(t.userId == owner && t.categoryId == Some(id))
  {
    if |txs| == 0 then 0
    else
      assert forall t | t in txs[1..] :: t in txs;
      (if txs[0].userId == owner && txs[0].categoryId == Some(id) then 1 else 0) + CountByCategory(txs[1..], id, owner)
  }

  datatype Usage = Usage(categoryId: string, isInUse: bool, transactionCount: nat, childCount: nat)

  /**
   * IsCategoryInUse: the counts of transactions and children; in use when either
   * is positive. A missing category is not an error: its counts are reported. A
   * failed lookup or count is.
   */
  function IsCategoryInUse(cats: seq<Category>, txs: seq<Transaction>, id: string, owner: string, fails: set<Trip>)
    : (r: Result<Usage, CategoryError>)
    ensures r.Failure? <==> CategoryLookup in fails || ChildCount in fails || TxCount in fails
    ensures r.Failure? ==> r.error == StoreFailed
    ensures r.Success? ==> r.value.categoryId == id
    ensures r.Success? ==> (r.value.isInUse <==>
      (exists t | t in txs :: t.userId == owner && t.categoryId == Some(id))
      || (exists c | c in cats :: c.userId == owner && c.parentId == Some(id)))
    ensures r.Success? ==> (r.value.isInUse <==> r.value.transactionCount > 0 || r.value.childCount > 0)
  {
    if CategoryLookup in fails || ChildCount in fails || TxCount in fails then Failure(StoreFailed)
    else
      var txCount := CountByCategory(txs, id, owner);
      var childCount := CR.CountChildren(cats, owner, id);
      Success(Usage(id, txCount > 0 || childCount > 0, txCount, childCount))
  }

  /**
   * DeleteCategory: refuses a missing category, then a default one, then one with
   * children, then one used by transactions, in that order; then deletes. A failed
   * lookup, count or write fails the call at that point.
   */
  function DeleteCategory(cats: seq<Category>, txs: seq<Transaction>, id: string, owner: string, fails: set<Trip>)
    : (r: Result<seq<Category>, CategoryError>)
    ensures CategoryLookup in fails ==> r == Failure(StoreFailed)
    ensures CategoryLookup !in fails && CR.GetByID(cats, id, owner).None? ==> r == Failure(CategoryNotFound)
    ensures CategoryLookup !in fails && CR.GetByID(cats, id, owner).Some? ==> var c := CR.GetByID(cats, id, owner).value;
      && (c.isDefault ==> r == Failure(DefaultCategory))
      && (!c.isDefault && ChildCount in fails ==> r == Failure(StoreFailed))
      && (!c.isDefault && ChildCount !in fails && CR.CountChildren(cats, owner, id) > 0 ==> r == Failure(HasChildren))
      && (!c.isDefault && ChildCount !in fails && CR.CountChildren(cats, owner, id) == 0 && TxCount in fails ==> r == Failure(StoreFailed))
      && ((!c.isDefault && ChildCount !in fails && CR.CountChildren(cats, owner, id) == 0 && TxCount !in fails
           && CountByCategory(txs, id, owner) > 0) ==> r == Failure(UsedByTransactions))
  {
    if CategoryLookup in fails then Failure(StoreFailed)
    else match CR.GetByID(cats, id, owner)
    case None => Failure(CategoryNotFound)
    case Some(existing) =>
      if existing.isDefault then Failure(DefaultCategory)
      else if ChildCount in fails then Failure(StoreFailed)
      else if CR.CountChildren(cats, owner, id) > 0 then Failure(HasChildren)
      else if TxCount in fails then Failure(StoreFailed)
      else if CountByCategory(txs, id, owner) > 0 then Failure(UsedByTransactions)
      else match CR.Delete(cats, id, owner, Write in fails)
        case Failure(e) => if e.NoDocuments? then Failure(NothingDeleted) else Failure(StoreFailed)
        case Success(kept) => Success(kept)
  }

  /**
   * Delete and the usage report agree: a category is deleted exactly when it is the
   * caller's, not a default one, not in use, and the store write goes through; the
   * deleted category is the only one that disappears.
   */
  lemma {:induction false} DeleteIffUnused(cats: seq<Category>, txs: seq<Transaction>, id: string, owner: string, fails: set<Trip>)
    ensures DeleteCategory(cats, txs, id, owner, fails).Success? <==>
      && CR.GetByID(cats, id, owner).Some? && !CR.GetByID(cats, id, owner).value.isDefault
      && IsCategoryInUse(cats, txs, id, owner, fails).Success?
      && !IsCategoryInUse(cats, txs, id, owner, fails).value.isInUse
      && Write !in fails
    ensures DeleteCategory(cats, txs, id, owner, fails).Success? ==>
      forall c :: c in DeleteCategory(cats, txs, id, owner, fails).value <==> c in cats && !(CR.Owned(c, id, owner) && !c.isDefault)
  {
    if CR.GetByID(cats, id, owner).Some? {
      var c := CR.GetByID(cats, id, owner).value;
      assert CR.Owned(c, id, owner) && c in cats;
    }
  }
}
