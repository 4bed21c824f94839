/**
 * The category collection as the category and transaction services use it,
 * including the parent reference and the lookups by parent that the category
 * service calls.
 */
module CategoryRepository {
  import opened Wrappers
  import opened Models

  datatype StoreError = StoreFailure | NoDocuments

  predicate Owned(c: Category, id: string, owner: string) {
    c.id == id && c.userId == owner
  }

  predicate UniqueIds(s: seq<Category>) {
    forall i, j | 0 <= i < j < |s| :: s[i].id != s[j].id
  }

  predicate IdUsed(s: seq<Category>, id: string) {
    exists c | c in s :: c.id == id
  }

  /** The category with this id and owner, or none. */
  function GetByID(s: seq<Category>, id: string, owner: string): (r: Option<Category>)
    ensures r.Some? ==> r.value in s && Owned(r.value, id, owner)
    ensures r.None? <==> (forall c | c in s :: !Owned(c, id, owner))
  {
    if |s| == 0 then None
    else if Owned(s[0], id, owner) then Some(s[0])
    else GetByID(s[1..], id, owner)
  }

  /** The category with this id whoever owns it, or none. */
  function GetByIDAnyOwner(s: seq<Category>, id: string): (r: Option<Category>)
    ensures r.Some? ==> r.value in s && r.value.id == id
    ensures r.None? <==> (forall c | c in s :: c.id != id)
  {
    if |s| == 0 then None
    else if s[0].id == id then Some(s[0])
    else GetByIDAnyOwner(s[1..], id)
  }

  /** With distinct ids, a lookup by id alone that finds the owner's category finds the owned one. */
  lemma {:induction false} AnyOwnerAgrees(s: seq<Category>, id: string, owner: string)
    requires UniqueIds(s)
    ensures GetByIDAnyOwner(s, id).Some? && GetByIDAnyOwner(s, id).value.userId == owner
      <==> GetByID(s, id, owner).Some?
    ensures GetByID(s, id, owner).Some? ==> GetByIDAnyOwner(s, id) == GetByID(s, id, owner)
  {
    if |s| > 0 && s[0].id != id {
      assert UniqueIds(s[1..]);
      AnyOwnerAgrees(s[1..], id, owner);
    }
  }

  /** The owner's categories whose parent is `parentId`. */
  function CountChildren(s: seq<Category>, owner: string, parentId: string): (r: nat)
    ensures r == 0 <==> forall c | c in s :: !(c.userId == owner && c.parentId == Some(parentId))
  {
    if |s| == 0 then 0
    else (if s[0].userId == owner && s[0].parentId == Some(parentId) then 1 else 0) + CountChildren(s[1..], owner, parentId)
  }

  datatype Created = Created(store: seq<Category>, category: Category)

  /** Create: a new, never default, category with the request's fields. */
  function Create(s: seq<Category>, owner: string, req: CreateCategoryRequest, newId: string, fails: bool)
    : (r: Result<Created, StoreError>)
    ensures r.Failure? <==> fails || IdUsed(s, newId)
    ensures r.Success? ==> r.value.store == s + [r.value.category]
    ensures r.Success? ==> var c := r.value.category;
      && c.id == newId && c.userId == owner && !c.isDefault
      && c.name == req.name && c.kind == req.kind && c.parentId == req.parentId
      && c.icon == req.icon && c.color == req.color
  {
    if fails || IdUsed(s, newId) then Failure(StoreFailure)
    else
      var c := Category(newId, owner, req.name, req.kind, req.parentId, req.icon, req.color, false);
      Success(Created(s + [c], c))
  }

  /** Supplied fields replace the category's; identity, owner and the default flag are kept. */
  function PatchCategory(c: Category, p: CategoryPatch): (r: Category)
    ensures r.id == c.id && r.userId == c.userId && r.isDefault == c.isDefault
    ensures r.name == p.name.GetOr(c.name) && r.kind == p.kind.GetOr(c.kind)
    ensures p.parentId.Some? ==> r.parentId == p.parentId
    ensures p.parentId.None? ==> r.parentId == c.parentId
    ensures r.icon == (if p.icon.Some? then p.icon else c.icon)
    ensures r.color == (if p.color.Some? then p.color else c.color)
  {
    Category(c.id, c.userId, p.name.GetOr(c.name), p.kind.GetOr(c.kind),
             if p.parentId.Some? then p.parentId else c.parentId,
             if p.icon.Some? then p.icon else c.icon,
             if p.color.Some? then p.color else c.color,
             c.isDefault)
  }

  datatype Updated = Updated(store: seq<Category>, category: Option<Category>)

  function PatchOwned(s: seq<Category>, id: string, owner: string, p: CategoryPatch): (r: seq<Category>)
    ensures |r| == |s|
    ensures forall i | 0 <= i < |s| :: r[i] == (if Owned(s[i], id, owner) then PatchCategory(s[i], p) else s[i])
  {
    seq(|s|, i requires 0 <= i < |s| => if Owned(s[i], id, owner) then PatchCategory(s[i], p) else s[i])
  }

  /** Update: patch the (id, owner) category and return it; no match returns nothing. */
  function Update(s: seq<Category>, id: string, owner: string, p: CategoryPatch, fails: bool)
    : (r: Result<Updated, StoreError>)
    ensures r.Failure? <==> fails
    ensures r.Success? && GetByID(s, id, owner).None? ==> r.value == Updated(s, None)
    ensures r.Success? && GetByID(s, id, owner).Some? ==>
      r.value.category == Some(PatchCategory(GetByID(s, id, owner).value, p)) && r.value.store == PatchOwned(s, id, owner, p)
  {
    if fails then Failure(StoreFailure)
    else match GetByID(s, id, owner)
      case None => Success(Updated(s, None))
      case Some(c) => Success(Updated(PatchOwned(s, id, owner, p), Some(PatchCategory(c, p))))
  }

  /**
   * With distinct ids, after an update the id finds the patched category, every
   * other category is as it was, and the store keeps its size.
   */
  lemma {:induction false} UpdateThenGet(s: seq<Category>, id: string, owner: string, p: CategoryPatch)
    requires UniqueIds(s)
    requires GetByID(s, id, owner).Some?
    ensures var store := Update(s, id, owner, p, false).value.store;
      && |store| == |s|
      && GetByID(store, id, owner) == Some(PatchCategory(GetByID(s, id, owner).value, p))
      && forall i | 0 <= i < |s| && s[i].id != id :: store[i] == s[i]
  {
    var c := GetByID(s, id, owner).value;
    var store := PatchOwned(s, id, owner, p);
    var k :| 0 <= k < |s| && s[k] == c;
    assert store[k] == PatchCategory(c, p);
    assert forall i | 0 <= i < |s| && i != k :: s[i].id != id;
    FirstOwned(store, k, id, owner);
  }

  /** When only position k has the id, the lookup finds what is stored there. */
  lemma {:induction false} FirstOwned(s: seq<Category>, k: nat, id: string, owner: string)
    requires k < |s| && Owned(s[k], id, owner)
    requires forall i | 0 <= i < |s| && i != k :: s[i].id != id
    ensures GetByID(s, id, owner) == Some(s[k])
  {
    if k > 0 {
      FirstOwned(s[1..], k - 1, id, owner);
    }
  }

  /** Delete: removes the owner's non-default category; nothing removed is NoDocuments. */
  function Delete(s: seq<Category>, id: string, owner: string, fails: bool): (r: Result<seq<Category>, StoreError>)
    ensures fails ==> r == Failure(StoreFailure)
    ensures !fails && (forall c | c in s :: !(Owned(c, id, owner) && !c.isDefault)) ==> r == Failure(NoDocuments)
    ensures r.Success? ==> forall c :: c in r.value <==> c in s && !(Owned(c, id, owner) && !c.isDefault)
  {
    if fails then Failure(StoreFailure)
    else
      var kept := Keep(s, id, owner);
      if |kept| == |s| then Failure(NoDocuments) else Success(kept)
  }

  function Keep(s: seq<Category>, id: string, owner: string): (r: seq<Category>)
    ensures forall c :: c in r <==> c in s && !(Owned(c, id, owner) && !c.isDefault)
    ensures |r| <= |s|
    ensures |r| == |s| <==> forall c | c in s :: !(Owned(c, id, owner) && !c.isDefault)
  {
    if |s| == 0 then []
    else
      var rest := Keep(s[1..], id, owner);
      assert forall c | c in s[1..] :: c in s;
      if Owned(s[0], id, owner) && !s[0].isDefault then rest else [s[0]] + rest
  }
}
