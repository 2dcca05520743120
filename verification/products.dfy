/** `GET /api/v1/products`: the product catalogue of the caller's brands,
    by name. */
module Products {

  import opened Schema
  import opened Seqs
  import opened Sorting
  import opened Auth
  import Leads

  /** Products in ascending name order. */
  const ByName: (Product, Product) -> bool := (a: Product, b: Product) => StrLe(a.name, b.name)

  lemma ByNameIsTotal()
    ensures TotalPreorder(ByName)
  {
    forall a: Product, b: Product ensures ByName(a, b) || ByName(b, a) {
      StrLeTotal(a.name, b.name);
    }
    forall a: Product, b: Product, c: Product | ByName(a, b) && ByName(b, c) ensures ByName(a, c) {
      StrLeTransitive(a.name, b.name, c.name);
    }
  }

  /** The rows of the caller's brands, whatever their status. */
  function OfBrands(brands: seq<BrandId>): Product -> bool {
    (p: Product) => p.brandId in brands
  }

  /** The handler: no rows for a caller without brands (the role does not
      matter), otherwise every product of the caller's brands, by name. */
  function ListProducts(db: Db, user: UserPayload): (r: seq<Product>)
    ensures |user.brandIds| == 0 ==> r == []
    ensures forall p :: p in r <==> p in db.products && p.brandId in user.brandIds
    ensures multiset(r) == multiset(Filter(db.products, OfBrands(user.brandIds)))
    ensures SortedBy(r, ByName)
  {
    if |user.brandIds| == 0 then []
    else
      ByNameIsTotal();
      var f := Filter(db.products, OfBrands(user.brandIds));
      var s := Sort(f, ByName);
      assert forall p :: p in s <==> p in multiset(s);
      assert forall p :: p in f <==> p in multiset(f);
      s
  }

  /** The listing keeps every row of the caller's brands as often as the
      table holds it, drops every other row, and never invents one: it is a
      rearrangement of the filtered table. */
  lemma ListedProductsArePermutation(db: Db, user: UserPayload)
    ensures forall p: Product ::
      multiset(ListProducts(db, user))[p] == (if p.brandId in user.brandIds then multiset(db.products)[p] else 0)
  {
    var r := ListProducts(db, user);
    var f := Filter(db.products, OfBrands(user.brandIds));
    var g := Filter(db.products, (p: Product) => !OfBrands(user.brandIds)(p));
    FilterComplement(db.products, OfBrands(user.brandIds), (p: Product) => !OfBrands(user.brandIds)(p));
    forall p: Product ensures multiset(r)[p] == (if p.brandId in user.brandIds then multiset(db.products)[p] else 0) {
      if p.brandId in user.brandIds {
        assert p !in g;
      } else {
        assert p !in f;
      }
    }
  }

  /** A caller whose token carries no brands, an admin included, sees no
      products and no leads. */
  lemma NoBrandsSeesNothing(db: Db, user: UserPayload, q: Leads.ListQuery)
    requires |user.brandIds| == 0
    ensures ListProducts(db, user) == []
    ensures Leads.ListLeads(db, user, q).NoBrands?
  {
  }
}
