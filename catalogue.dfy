/** The product handlers of controllers/produitController.js over the product
    collection (models/produitModel.js), kept as a sequence in storage order.
    The caller is the identity the authentication middleware put in
    `req.user`; reading rights test its `role`, writing rights and the
    per-user listing test an `isAdmin` flag the middleware never sets. */
module Catalogue {
  import opened Common
  import opened Store
  import opened JsText
  import opened AuthMiddleware

  const AdminRole: string := "admin"
  const DefaultPage: int := 1
  const DefaultLimit: int := 10
  const DefaultQuantity: int := 1

  /** A stored number. `parseFloat` of the request's `prix` is kept opaque;
      an integer is known exactly. */
  datatype Amount = ParsedFloat(raw: JsValue) | Whole(n: int) | Given(value: real)

  /** A document of the product collection; `user` is the owner's id and the
      two dates are milliseconds. */
  datatype Product = Product(id: Id, titre: string, prix: Amount, quantite: Amount, description: string,
                             status: bool, user: Id, createdAt: int, updatedAt: int)

  function ProductKey(p: Product): Id { p.id }

  /** `req.user` as the product handlers read it. */
  datatype Caller = Caller(id: Id, role: string, isAdmin: bool)

  /** The caller the middleware produces: its object has no `isAdmin` field,
      which reads as undefined, that is false. */
  function CallerOf(user: Identity): (c: Caller)
    ensures c.id == user.id && c.role == user.role && !c.isAdmin
  {
    Caller(user.id, user.role, false)
  }

  /** The owner's public fields, as `populate` brings them in. */
  datatype OwnerInfo = OwnerInfo(name: string, email: string)

  /** The fields of an update request body, already cast to the stored types;
      an absent field is None and leaves the stored value as it is. */
  datatype Patch = Patch(titre: Option<string>, prix: Option<Amount>, quantite: Option<Amount>,
                         description: Option<string>, status: Option<bool>)

  datatype Body =
    | Empty
    | Stored(product: Product)
    | Duplicate(existingId: Id, existingTitre: string, existingCreatedAt: int)
    | Page(count: nat, total: nat, page: int, pages: int, data: seq<Product>)
    | Detail(product: Product, owner: OwnerInfo)
    | Listing(count: nat, data: seq<Product>)

  datatype Response = Response(status: Status, body: Body)

  datatype Table = Table(products: seq<Product>, nextId: nat)

  datatype Outcome = Outcome(response: Response, table: Table)

  function Refuse(t: Table, status: Status): Outcome { Outcome(Response(status, Empty), t) }

  /** `Product.findById(id)`: the position of a product with the id. */
  function ProductById(products: seq<Product>, id: Id): (r: Option<nat>)
    ensures r.Some? ==> r.value < |products| && products[r.value].id == id
  {
    FindFirst(products, (p: Product) => p.id == id)
  }

  /** `Product.findOne({ titre, user })`: the position of a product of the
      owner with the title. */
  function ProductByTitle(products: seq<Product>, titre: string, owner: Id): (r: Option<nat>)
    ensures r.Some? ==> r.value < |products| && products[r.value].titre == titre && products[r.value].user == owner
  {
    FindFirst(products, (p: Product) => p.titre == titre && p.user == owner)
  }

  ghost predicate WellFormed(t: Table)
  {
    KeysDistinct(t.products, ProductKey) && KeysBelow(t.products, ProductKey, t.nextId)
  }

  // ------------------------------------------------------------ access rules

  /** `getProductById`: the owner (when the owner document still exists for
      `populate`) or a caller whose role is "admin". */
  predicate CanRead(caller: Caller, product: Product, ownerFound: bool)
  {
    (ownerFound && product.user == caller.id) || caller.role == AdminRole
  }

  /** `updateProduct` and `deleteProduct`: the owner or a caller with `isAdmin`. */
  predicate CanModify(caller: Caller, product: Product)
  {
    product.user == caller.id || caller.isAdmin
  }

  /** `getProductsByUser`: the user themself or a caller with `isAdmin`. */
  predicate CanList(caller: Caller, userId: Id)
  {
    userId == caller.id || caller.isAdmin
  }

  /** Through the middleware the admin role opens reading but never writing:
      a caller with role "admin" that does not own a product may read it and
      may neither change nor delete it, nor list another user's products. */
  lemma AdminRoleOnlyReads(user: Identity, product: Product, ownerFound: bool, other: Id)
    requires user.role == AdminRole && product.user != user.id && other != user.id
    ensures CanRead(CallerOf(user), product, ownerFound)
    ensures !CanModify(CallerOf(user), product) && !CanList(CallerOf(user), other)
  {
  }

  /** An owner may always change, delete and list its own products, and reads
      them while its user document exists (or, without it, only with the
      admin role). */
  lemma OwnerRights(caller: Caller, product: Product, ownerFound: bool)
    requires product.user == caller.id
    ensures CanModify(caller, product) && CanList(caller, product.user)
    ensures CanRead(caller, product, ownerFound) <==> ownerFound || caller.role == AdminRole
  {
  }

  /** A caller that is neither the owner, nor of role "admin", nor flagged
      `isAdmin` may neither read, change nor delete the product, nor list
      another user's products. */
  lemma StrangerRights(caller: Caller, product: Product, ownerFound: bool, userId: Id)
    requires product.user != caller.id && userId != caller.id
    requires caller.role != AdminRole && !caller.isAdmin
    ensures !CanRead(caller, product, ownerFound) && !CanModify(caller, product) && !CanList(caller, userId)
  {
  }

  // ------------------------------------------------------------ createProduct

  /** The stored description: trimmed text, or "" when absent or blank. */
  function DescriptionOf(description: Option<string>): (r: string)
    ensures r == [] || (!IsSpace(r[0]) && !IsSpace(r[|r| - 1]))
    ensures description.Some? ==> r == Trim(description.value)
    ensures description.None? ==> r == ""
  {
    if description.Some? then Trim(description.value) else ""
  }

  /** `createProduct`: 400 unless the title and the price are truthy; 409 when
      the caller already owns a product with the trimmed title; otherwise a new
      product with the trimmed title, `parseFloat` of the price, the parsed
      quantity or 1, the trimmed description or "", the status or false, the
      caller as owner and both dates `now`. */
  function CreateStep(t: Table, caller: Caller, titre: Option<string>, prix: JsValue, quantite: JsValue,
                      description: Option<string>, status: Option<bool>, now: int): (r: Outcome)
    ensures
      || r.response.status == BadRequest
      || r.response.status == Conflict
      || r.response.status == Created
    ensures r.response.status == BadRequest <==> !Present(titre) || !Truthy(prix)
    ensures r.response.status == Conflict <==>
      Present(titre) && Truthy(prix) && ProductByTitle(t.products, Trim(titre.value), caller.id).Some?
    ensures r.response.status == Created <==>
      Present(titre) && Truthy(prix) && ProductByTitle(t.products, Trim(titre.value), caller.id).None?
    ensures r.response.status != Created ==> r.table == t
    ensures r.response.status == Conflict ==>
      var e := t.products[ProductByTitle(t.products, Trim(titre.value), caller.id).value];
      r.response.body == Duplicate(e.id, e.titre, e.createdAt)
    ensures r.response.status == Created ==>
      var p := Product(t.nextId, Trim(titre.value), ParsedFloat(prix), Whole(IntOr(ParseInt(quantite), DefaultQuantity)),
                       DescriptionOf(description), status == Some(true), caller.id, now, now);
      && r.table == Table(t.products + [p], t.nextId + 1)
      && r.response == Response(Created, Stored(p))
  {
    if !Present(titre) || !Truthy(prix) then Refuse(t, BadRequest)
    else
      var title := Trim(titre.value);
      match ProductByTitle(t.products, title, caller.id)
      case Some(i) =>
        var existing := t.products[i];
        Outcome(Response(Conflict, Duplicate(existing.id, existing.titre, existing.createdAt)), t)
      case None =>
        var p := Product(t.nextId, title, ParsedFloat(prix), Whole(IntOr(ParseInt(quantite), DefaultQuantity)),
                         DescriptionOf(description), status == Some(true), caller.id, now, now);
        Outcome(Response(Created, Stored(p)), Table(t.products + [p], t.nextId + 1))
  }

  /** A price of 0 is falsy and refused, while the text "0" is truthy and
      stored as `parseFloat("0")`. */
  lemma ZeroPriceRefused(t: Table, caller: Caller, titre: string, quantite: JsValue,
                         description: Option<string>, status: Option<bool>, now: int)
    requires titre != ""
    requires ProductByTitle(t.products, Trim(titre), caller.id).None?
    ensures CreateStep(t, caller, Some(titre), Num(0.0), quantite, description, status, now)
            == Refuse(t, BadRequest)
    ensures var r := CreateStep(t, caller, Some(titre), Str("0"), quantite, description, status, now);
      r.response.status == Created && r.response.body.product.prix == ParsedFloat(Str("0"))
  {
  }

  /** The quantity falls back to 1 when it is absent or spells no digit. */
  lemma QuantityFallback()
    ensures IntOr(ParseInt(Undefined), DefaultQuantity) == 1
    ensures IntOr(ParseInt(Str("")), DefaultQuantity) == 1
  {
    assert TrimStart("") == "";
    ParseIntTextSign("");
  }

  /** A written quantity is stored as written, except 0, which falls back to 1. */
  lemma QuantityWritten(written: int)
    ensures written == 0 ==> IntOr(ParseInt(Str(IntToString(written))), DefaultQuantity) == 1
    ensures written != 0 ==> IntOr(ParseInt(Str(IntToString(written))), DefaultQuantity) == written
  {
    ParseIntOfDecimal(written);
  }

  /** A title is stored trimmed, so creating the same product again, with the
      stored title or with white space around it, is 409 for the same owner. */
  lemma CreateAgainConflicts(t: Table, caller: Caller, titre: string, prix: JsValue, quantite: JsValue,
                             description: Option<string>, status: Option<bool>, now: int,
                             padding: string, later: int)
    requires CreateStep(t, caller, Some(titre), prix, quantite, description, status, now).response.status == Created
    requires AllSpace(padding)
    ensures var t1 := CreateStep(t, caller, Some(titre), prix, quantite, description, status, now).table;
      CreateStep(t1, caller, Some(padding + titre + padding), prix, quantite, description, status, later)
        .response.status == Conflict
  {
    var r := CreateStep(t, caller, Some(titre), prix, quantite, description, status, now);
    var t1 := r.table;
    var title := Trim(titre);
    var padded := padding + titre + padding;
    assert Truthy(prix) && titre != "";
    PaddedTrim(padding, titre);
    assert Trim(padded) == title;
    assert |padded| >= |titre| > 0;
    assert t1.products[|t.products|].titre == title && t1.products[|t.products|].user == caller.id;
    assert ProductByTitle(t1.products, title, caller.id).Some?;
    assert Present(Some(padded));
  }

  /** Another owner may still use the title. */
  lemma OtherOwnerMayReuseTitle(t: Table, caller: Caller, titre: string, prix: JsValue, quantite: JsValue,
                                description: Option<string>, status: Option<bool>, now: int,
                                other: Caller, later: int)
    requires CreateStep(t, caller, Some(titre), prix, quantite, description, status, now).response.status == Created
    requires other.id != caller.id && ProductByTitle(t.products, Trim(titre), other.id).None?
    ensures var t1 := CreateStep(t, caller, Some(titre), prix, quantite, description, status, now).table;
      CreateStep(t1, other, Some(titre), prix, quantite, description, status, later).response.status == Created
  {
    var r := CreateStep(t, caller, Some(titre), prix, quantite, description, status, now);
    var p := r.response.body.product;
    assert r.table.products == t.products + [p] && p.user == caller.id;
    FindFirstAppendMiss(t.products, p, (q: Product) => q.titre == Trim(titre) && q.user == other.id);
  }

  // ------------------------------------------------------------ getAllProducts

  /** `Math.ceil(total / limit)` for a non-zero limit: for a negative limit
      the quotient is negative and rounds toward zero. */
  function PageCount(total: nat, limit: int): int
    requires limit != 0
  {
    if limit > 0 then (total + limit - 1) / limit else -(total / -limit)
  }

  /** For a positive limit the page count is the least number of pages that
      holds the total; for a negative one it is the negated quotient of the
      total by the limit's magnitude, rounded down. */
  lemma PageCountBounds(total: nat, limit: int)
    requires limit != 0
    ensures var pages := PageCount(total, limit);
      && (limit > 0 ==> pages >= 0 && pages * limit >= total && (pages == 0 || (pages - 1) * limit < total))
      && (limit < 0 ==> pages <= 0 && -pages * -limit <= total && total < (-pages + 1) * -limit)
  {
  }

  /** `page`, `limit` and `skip` from the query: `parseInt(v) || default`. */
  datatype Paging = Paging(page: int, limit: int, skip: int)

  function PagingOf(pageQuery: JsValue, limitQuery: JsValue): (p: Paging)
    ensures p.page != 0 && p.limit != 0
    ensures p.skip == (p.page - 1) * p.limit
    ensures p.page == IntOr(ParseInt(pageQuery), DefaultPage)
    ensures p.limit == IntOr(ParseInt(limitQuery), DefaultLimit)
  {
    var page := IntOr(ParseInt(pageQuery), DefaultPage);
    var limit := IntOr(ParseInt(limitQuery), DefaultLimit);
    Paging(page, limit, (page - 1) * limit)
  }

  function Abs(n: int): nat { if n < 0 then -n else n }

  function Min(a: int, b: int): int { if a < b then a else b }

  /** `.skip(skip).limit(limit)` for a non-negative skip; a negative limit
      returns at most its absolute value of documents. */
  function Window(s: seq<Product>, skip: nat, limit: int): (w: seq<Product>)
    requires limit != 0
    ensures |w| <= Abs(limit)
    ensures skip >= |s| ==> w == []
    ensures skip < |s| ==> w == s[skip..Min(skip + Abs(limit), |s|)]
  {
    if skip >= |s| then [] else s[skip..Min(skip + Abs(limit), |s|)]
  }

  /** The documents the list query keeps: all of them, or those whose title
      the search pattern matches (the regular expression is a parameter). */
  function Listed(products: seq<Product>, search: Option<string>, matches: string -> bool): seq<Product>
  {
    if Present(search) then Select(products, (p: Product) => matches(p.titre)) else products
  }

  /** Without a search term every product is listed; with one, exactly the
      products whose title the pattern matches. */
  lemma ListedMembers(products: seq<Product>, search: Option<string>, matches: string -> bool)
    ensures !Present(search) ==> Listed(products, search, matches) == products
    ensures Present(search) ==>
      forall p :: p in Listed(products, search, matches) <==> p in products && matches(p.titre)
  {
    SelectMembers(products, (p: Product) => matches(p.titre));
  }

  /** `getAllProducts`: the page of the filtered products with its count, the
      filtered total, the page number and the page count. A negative skip is
      refused by the database: 500. */
  function ListProducts(products: seq<Product>, pageQuery: JsValue, limitQuery: JsValue,
                        search: Option<string>, matches: string -> bool): (r: Response)
    ensures var p := PagingOf(pageQuery, limitQuery);
      && (r.status == InternalServerError <==> p.skip < 0)
      && (r.status != InternalServerError ==>
            && r.status == Ok && r.body.Page?
            && r.body.count == |r.body.data| <= Abs(p.limit)
            && r.body.total == |Listed(products, search, matches)|
            && r.body.page == p.page
            && r.body.pages == PageCount(r.body.total, p.limit)
            && r.body.data == Window(Listed(products, search, matches), p.skip, p.limit))
  {
    var p := PagingOf(pageQuery, limitQuery);
    if p.skip < 0 then Response(InternalServerError, Empty)
    else
      var all := Listed(products, search, matches);
      var data := Window(all, p.skip, p.limit);
      Response(Ok, Page(|data|, |all|, p.page, PageCount(|all|, p.limit), data))
  }

  /** With a positive limit, page n (1-based) holds the listed products from
      position (n - 1) * limit on, in order. */
  lemma PageContents(products: seq<Product>, pageQuery: JsValue, limitQuery: JsValue, n: int, limit: int,
                     search: Option<string>, matches: string -> bool)
    requires ParseInt(pageQuery) == Some(n) && ParseInt(limitQuery) == Some(limit)
    requires n >= 1 && limit > 0
    ensures var all := Listed(products, search, matches);
      var r := ListProducts(products, pageQuery, limitQuery, search, matches);
      var skip := PageStart(n, limit);
      && r.status == Ok
      && r.body.page == n
      && r.body.data == all[Min(skip, |all|)..Min(skip + limit, |all|)]
  {
    PagingOfParsed(pageQuery, limitQuery, n, limit);
  }

  /** Without page or limit in the query (or with values that parse to NaN or
      0), the answer is page 1 holding the first ten listed products. */
  lemma DefaultPageContents(products: seq<Product>, pageQuery: JsValue, limitQuery: JsValue,
                            search: Option<string>, matches: string -> bool)
    requires ParseInt(pageQuery).None? || ParseInt(pageQuery) == Some(0)
    requires ParseInt(limitQuery).None? || ParseInt(limitQuery) == Some(0)
    ensures var all := Listed(products, search, matches);
      var r := ListProducts(products, pageQuery, limitQuery, search, matches);
      && r.status == Ok
      && r.body.page == DefaultPage
      && r.body.data == all[..Min(DefaultLimit, |all|)]
  {
  }

  /** A page and a limit that parse to non-zero numbers are used as given. */
  lemma PagingOfParsed(pageQuery: JsValue, limitQuery: JsValue, n: int, limit: int)
    requires ParseInt(pageQuery) == Some(n) && ParseInt(limitQuery) == Some(limit)
    requires n >= 1 && limit > 0
    ensures PagingOf(pageQuery, limitQuery) == Paging(n, limit, PageStart(n, limit))
  {
  }

  /** The first position of page n: (n - 1) * limit, never negative. */
  function PageStart(n: int, limit: int): (skip: nat)
    requires n >= 1 && limit > 0
    ensures skip == (n - 1) * limit
  {
    MulNonNegative(n - 1, limit);
    (n - 1) * limit
  }

  lemma MulNonNegative(a: int, b: int)
    requires a >= 0 && b >= 0
    ensures a * b >= 0
  {
  }

  /** With a positive limit, the listed product at position k is on page
      k / limit + 1, which is one of the pages 1 to `pages`; so the pages
      cover the listing, and by `PageContents` do not overlap. */
  lemma EveryPositionOnAPage(total: nat, limit: int, k: nat)
    requires limit > 0 && k < total
    ensures var n := k / limit + 1;
      && 1 <= n <= PageCount(total, limit)
      && (n - 1) * limit <= k < n * limit
  {
    var q := k / limit;
    var pages := PageCount(total, limit);
    PageCountBounds(total, limit);
    assert q * limit <= k < (q + 1) * limit;
    if q + 1 > pages {
      assert pages <= q;
      MulMonotone(pages, q, limit);
    }
  }

  lemma MulMonotone(a: int, b: int, c: int)
    requires a <= b && c >= 0
    ensures a * c <= b * c
  {
    MulNonNegative(b - a, c);
    assert (b - a) * c == b * c - a * c;
  }

  /** The page asked for changes the page, never the total or the page count. */
  lemma TotalIndependentOfPage(products: seq<Product>, page1: JsValue, page2: JsValue, limitQuery: JsValue,
                               search: Option<string>, matches: string -> bool)
    requires PagingOf(page1, limitQuery).skip >= 0 && PagingOf(page2, limitQuery).skip >= 0
    ensures var r1 := ListProducts(products, page1, limitQuery, search, matches);
      var r2 := ListProducts(products, page2, limitQuery, search, matches);
      r1.body.total == r2.body.total && r1.body.pages == r2.body.pages
  {
  }

  /** Without a search term the listing spans every product, whoever owns it. */
  lemma NoOwnerFilter(products: seq<Product>, pageQuery: JsValue, limitQuery: JsValue, matches: string -> bool)
    requires PagingOf(pageQuery, limitQuery).skip >= 0
    ensures ListProducts(products, pageQuery, limitQuery, None, matches).body.total == |products|
  {
  }

  // ------------------------------------------------------------ getProductById

  /** `getProductById`: 400 for an id that is not an ObjectId (the check is a
      parameter), 404 when no product has it, 403 unless `CanRead`; otherwise
      the product with its owner's name and e-mail. An admin reading a product
      whose owner is gone reaches `product.user.name` on null: 500. */
  function GetProductById(products: seq<Product>, caller: Caller, id: Id, idValid: bool,
                          owner: Id -> Option<OwnerInfo>): (r: Response)
    ensures r.status == BadRequest <==> !idValid
    ensures r.status == NotFound <==> idValid && ProductById(products, id).None?
    ensures idValid && ProductById(products, id).Some? ==>
      var p := products[ProductById(products, id).value];
      && (r.status == Forbidden <==> !CanRead(caller, p, owner(p.user).Some?))
      && (r.status == Ok <==> CanRead(caller, p, owner(p.user).Some?) && owner(p.user).Some?)
      && (r.status == InternalServerError <==> CanRead(caller, p, owner(p.user).Some?) && owner(p.user).None?)
      && (r.status == Ok ==> r.body == Detail(p, owner(p.user).value))
  {
    if !idValid then Response(BadRequest, Empty)
    else match ProductById(products, id)
      case None => Response(NotFound, Empty)
      case Some(i) =>
        var p := products[i];
        var found := owner(p.user);
        if !CanRead(caller, p, found.Some?) then Response(Forbidden, Empty)
        else if found.None? then Response(InternalServerError, Empty)
        else Response(Ok, Detail(p, found.value))
  }

  // ------------------------------------------------------------ updateProduct

  /** The product after `findByIdAndUpdate` with the five body fields and
      `updatedAt`. */
  function Patched(p: Product, patch: Patch, now: int): (q: Product)
    ensures q.id == p.id && q.user == p.user && q.createdAt == p.createdAt && q.updatedAt == now
    ensures patch.titre.Some? ==> q.titre == patch.titre.value
    ensures patch.titre.None? ==> q.titre == p.titre
    ensures patch.prix.Some? ==> q.prix == patch.prix.value
    ensures patch.prix.None? ==> q.prix == p.prix
    ensures patch.quantite.Some? ==> q.quantite == patch.quantite.value
    ensures patch.quantite.None? ==> q.quantite == p.quantite
    ensures patch.description.Some? ==> q.description == patch.description.value
    ensures patch.description.None? ==> q.description == p.description
    ensures patch.status.Some? ==> q.status == patch.status.value
    ensures patch.status.None? ==> q.status == p.status
  {
    p.(titre := KeepUnless(patch.titre, p.titre), prix := KeepUnless(patch.prix, p.prix),
       quantite := KeepUnless(patch.quantite, p.quantite),
       description := KeepUnless(patch.description, p.description),
       status := KeepUnless(patch.status, p.status), updatedAt := now)
  }

  /** `updateProduct`: 400 when the body fails validation (the validator is a
      parameter), 404 when no product has the id, 403 unless `CanModify`;
      otherwise that product alone is patched. */
  function UpdateStep(t: Table, caller: Caller, id: Id, patch: Patch, bodyValid: bool, now: int): (r: Outcome)
    ensures
      || r.response.status == BadRequest
      || r.response.status == NotFound
      || r.response.status == Forbidden
      || r.response.status == Ok
    ensures r.response.status == BadRequest <==> !bodyValid
    ensures r.response.status == NotFound <==> bodyValid && ProductById(t.products, id).None?
    ensures r.response.status != Ok ==> r.table == t
    ensures bodyValid && ProductById(t.products, id).Some? ==>
      var i := ProductById(t.products, id).value;
      && (r.response.status == Forbidden <==> !CanModify(caller, t.products[i]))
      && (r.response.status == Ok <==> CanModify(caller, t.products[i]))
      && (r.response.status == Ok ==>
            && r.table == t.(products := t.products[i := Patched(t.products[i], patch, now)])
            && r.response.body == Stored(Patched(t.products[i], patch, now)))
  {
    if !bodyValid then Refuse(t, BadRequest)
    else match ProductById(t.products, id)
      case None => Refuse(t, NotFound)
      case Some(i) =>
        if !CanModify(caller, t.products[i]) then Refuse(t, Forbidden)
        else
          var q := Patched(t.products[i], patch, now);
          Outcome(Response(Ok, Stored(q)), t.(products := t.products[i := q]))
  }

  // ------------------------------------------------------------ deleteProduct

  /** `deleteProduct`: 404 when no product has the id, 403 unless `CanModify`;
      otherwise that product is removed. */
  function DeleteStep(t: Table, caller: Caller, id: Id): (r: Outcome)
    ensures
      || r.response.status == NotFound
      || r.response.status == Forbidden
      || r.response.status == Ok
    ensures r.response.status == NotFound <==> ProductById(t.products, id).None?
    ensures r.response.status != Ok ==> r.table == t
    ensures ProductById(t.products, id).Some? ==>
      var i := ProductById(t.products, id).value;
      && (r.response.status == Forbidden <==> !CanModify(caller, t.products[i]))
      && (r.response.status == Ok <==> CanModify(caller, t.products[i]))
      && (r.response.status == Ok ==> r.table == t.(products := RemoveAt(t.products, i)))
  {
    match ProductById(t.products, id)
    case None => Refuse(t, NotFound)
    case Some(i) =>
      if !CanModify(caller, t.products[i]) then Refuse(t, Forbidden)
      // findByIdAndDelete(id) removes the document findById returned
      else Outcome(Response(Ok, Empty), t.(products := RemoveAt(t.products, i)))
  }

  /** A deletion removes the product with that id and keeps every other one,
      in order; afterwards the id is unknown. */
  lemma DeleteRemovesExactlyOne(t: Table, caller: Caller, id: Id)
    requires WellFormed(t)
    requires DeleteStep(t, caller, id).response.status == Ok
    ensures var t1 := DeleteStep(t, caller, id).table;
      && t1.products == Select(t.products, (p: Product) => p.id != id)
      && ProductById(t1.products, id).None?
  {
    var i := ProductById(t.products, id).value;
    var keep := (p: Product) => p.id != id;
    forall j | 0 <= j < |t.products| && j != i ensures keep(t.products[j]) {
      if j < i { assert ProductKey(t.products[j]) != ProductKey(t.products[i]); }
      else { assert ProductKey(t.products[i]) != ProductKey(t.products[j]); }
    }
    SelectDropsOne(t.products, keep, i);
    var t1 := DeleteStep(t, caller, id).table;
    assert t1.products == RemoveAt(t.products, i);
    forall k | 0 <= k < |t1.products| ensures t1.products[k].id != id {
      var k' := if k < i then k else k + 1;
      assert t1.products[k] == t.products[k'] && keep(t.products[k']);
    }
  }

  // ------------------------------------------------------------ getProductsByUser

  /** `getProductsByUser`: 403 unless `CanList`; otherwise exactly the products
      the user owns, in storage order. */
  function ProductsByUser(products: seq<Product>, caller: Caller, userId: Id): (r: Response)
    ensures r.status == Forbidden <==> !CanList(caller, userId)
    ensures r.status != Forbidden ==>
      && r.status == Ok && r.body.Listing?
      && r.body.data == Select(products, (p: Product) => p.user == userId)
      && r.body.count == |r.body.data|
  {
    if !CanList(caller, userId) then Response(Forbidden, Empty)
    else
      var owned := Select(products, (p: Product) => p.user == userId);
      Response(Ok, Listing(|owned|, owned))
  }

  /** A product the caller has just created is in the caller's own listing,
      after everything the caller owned before. */
  lemma CreatedIsListed(t: Table, caller: Caller, titre: Option<string>, prix: JsValue, quantite: JsValue,
                        description: Option<string>, status: Option<bool>, now: int)
    requires CreateStep(t, caller, titre, prix, quantite, description, status, now).response.status == Created
    ensures var r := CreateStep(t, caller, titre, prix, quantite, description, status, now);
      ProductsByUser(r.table.products, caller, caller.id).body.data
        == ProductsByUser(t.products, caller, caller.id).body.data + [r.response.body.product]
  {
    var r := CreateStep(t, caller, titre, prix, quantite, description, status, now);
    var p := r.response.body.product;
    assert r.table.products == t.products + [p] && p.user == caller.id;
    var mine := (q: Product) => q.user == caller.id;
    SelectAppend(t.products, [p], mine);
    assert Select([p], mine) == [p];
  }

  // ------------------------------------------------------------ the invariant is kept

  lemma CreateKeepsWellFormed(t: Table, caller: Caller, titre: Option<string>, prix: JsValue, quantite: JsValue,
                              description: Option<string>, status: Option<bool>, now: int)
    requires WellFormed(t)
    ensures WellFormed(CreateStep(t, caller, titre, prix, quantite, description, status, now).table)
  {
    var r := CreateStep(t, caller, titre, prix, quantite, description, status, now);
    if r.response.status == Created {
      AppendFreshKey(t.products, ProductKey, r.response.body.product, t.nextId);
    }
  }

  lemma UpdateKeepsWellFormed(t: Table, caller: Caller, id: Id, patch: Patch, bodyValid: bool, now: int)
    requires WellFormed(t)
    ensures WellFormed(UpdateStep(t, caller, id, patch, bodyValid, now).table)
  {
    var r := UpdateStep(t, caller, id, patch, bodyValid, now);
    if r.response.status == Ok {
      var i := ProductById(t.products, id).value;
      ReplaceKeepsKeys(t.products, ProductKey, i, Patched(t.products[i], patch, now), t.nextId);
    }
  }

  lemma DeleteKeepsWellFormed(t: Table, caller: Caller, id: Id)
    requires WellFormed(t)
    ensures WellFormed(DeleteStep(t, caller, id).table)
  {
    var r := DeleteStep(t, caller, id);
    if r.response.status == Ok {
      RemoveAtKeepsKeys(t.products, ProductKey, ProductById(t.products, id).value, t.nextId);
    }
  }

  // ------------------------------------------------------------ the product table

  /** The product collection, changed in place by create, update and delete;
      the listing and the two lookups only read it. Each method makes its
      handler's checks and writes in order, so it repeats the branches of its
      step function, and is proved to reach that step's response and table. */
  class ProductTable {
    var products: seq<Product>
    var nextId: nat

    function State(): Table
      reads this
    {
      Table(products, nextId)
    }

    ghost predicate Valid()
      reads this
    {
      WellFormed(State())
    }

    constructor ()
      ensures Valid() && State() == Table([], 0)
    {
      products := [];
      nextId := 0;
    }

    method Create(caller: Caller, titre: Option<string>, prix: JsValue, quantite: JsValue,
                  description: Option<string>, status: Option<bool>, now: int) returns (r: Response)
      requires Valid()
      modifies this
      ensures Valid()
      ensures Outcome(r, State()) == CreateStep(old(State()), caller, titre, prix, quantite, description, status, now)
    {
      CreateKeepsWellFormed(State(), caller, titre, prix, quantite, description, status, now);
      if !Present(titre) || !Truthy(prix) {
        return Response(BadRequest, Empty);
      }
      var title := Trim(titre.value);
      var existing := ProductByTitle(products, title, caller.id);
      if existing.Some? {
        var e := products[existing.value];
        return Response(Conflict, Duplicate(e.id, e.titre, e.createdAt));
      }
      var p := Product(nextId, title, ParsedFloat(prix), Whole(IntOr(ParseInt(quantite), DefaultQuantity)),
                       DescriptionOf(description), status == Some(true), caller.id, now, now);
      products := products + [p];
      nextId := nextId + 1;
      r := Response(Created, Stored(p));
    }

    method Update(caller: Caller, id: Id, patch: Patch, bodyValid: bool, now: int) returns (r: Response)
      requires Valid()
      modifies this
      ensures Valid()
      ensures Outcome(r, State()) == UpdateStep(old(State()), caller, id, patch, bodyValid, now)
    {
      UpdateKeepsWellFormed(State(), caller, id, patch, bodyValid, now);
      if !bodyValid {
        return Response(BadRequest, Empty);
      }
      var found := ProductById(products, id);
      if found.None? {
        return Response(NotFound, Empty);
      }
      var i := found.value;
      if !CanModify(caller, products[i]) {
        return Response(Forbidden, Empty);
      }
      var q := Patched(products[i], patch, now);
      products := products[i := q];
      r := Response(Ok, Stored(q));
    }

    method Delete(caller: Caller, id: Id) returns (r: Response)
      requires Valid()
      modifies this
      ensures Valid()
      ensures Outcome(r, State()) == DeleteStep(old(State()), caller, id)
    {
      DeleteKeepsWellFormed(State(), caller, id);
      var found := ProductById(products, id);
      if found.None? {
        return Response(NotFound, Empty);
      }
      if !CanModify(caller, products[found.value]) {
        return Response(Forbidden, Empty);
      }
      products := RemoveAt(products, found.value);
      r := Response(Ok, Empty);
    }
  }
}
