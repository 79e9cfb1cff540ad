/** The product listing: the catalog filtered by the current selection (size,
    price band, fabric, colour; an empty value places no constraint), and the
    step of each product's image carousel. */
module ProductsPage {
  import opened JsBuiltins
  import opened ProductFilter

  /** A catalog entry, with the fields the listing reads. */
  datatype Product = Product(
    id: int,
    title: string,
    price: int,
    size: string,
    fabric: string,
    color: string,
    images: seq<string>)

  // ---------------------------------------------------------------------------
  // Price bands

  /** `min` of `const [min, max] = band.split("-").map(Number)`. */
  function BandMin(band: string): (min: Option<int>)
    ensures '-' !in band ==> min == Number(band)
    ensures min.Some? ==> min.value >= 0
  {
    if '-' !in band then
      SplitNoSeparator(band, '-');
      Number(Split(band, '-')[0])
    else Number(Split(band, '-')[0])
  }

  /** `max` of the same destructuring; `None` for `undefined` and `NaN`. */
  function BandMax(band: string): (max: Option<int>)
    ensures '-' !in band ==> max == None
    ensures max.Some? ==> max.value >= 0
  {
    var parts := Split(band, '-');
    if '-' !in band then
      SplitNoSeparator(band, '-');
      None
    else if |parts| < 2 then None else Number(parts[1])
  }

  /** `product.price >= min && product.price <= (max || Infinity)`: a `NaN`
      minimum admits nothing, and a missing, `NaN` or zero maximum places no
      upper bound. */
  function WithinBand(band: string, price: int): (within: bool)
    ensures within ==> price >= 0
    ensures band == "" ==> (within <==> price >= 0)
  {
    match BandMin(band)
    case None => false
    case Some(lo) =>
      price >= lo &&
      match BandMax(band)
      case Some(hi) => hi == 0 || price <= hi
      case None => true
  }

  /** A band of two digit strings admits exactly the prices from its minimum
      to its maximum, both inclusive, except that a maximum of 0 (including
      an empty one) leaves the band open above. */
  lemma {:induction false} WithinDigitBand(lo: string, hi: string, price: int)
    requires IsDigits(lo) && IsDigits(hi)
    ensures WithinBand(lo + "-" + hi, price) <==>
      DigitsValue(lo) <= price && (DigitsValue(hi) == 0 || price <= DigitsValue(hi))
  {
    assert '-' !in lo by {
      forall i | 0 <= i < |lo| ensures lo[i] != '-' { assert IsDigit(lo[i]); }
    }
    assert '-' !in hi by {
      forall i | 0 <= i < |hi| ensures hi[i] != '-' { assert IsDigit(hi[i]); }
    }
    SplitAtFirst(lo, hi, '-');
    SplitNoSeparator(hi, '-');
    assert lo + "-" + hi == lo + ['-'] + hi;
  }

  /** A value without "-" is a lower bound only. */
  lemma WithinSingleValue(v: string, price: int)
    requires IsDigits(v)
    ensures WithinBand(v, price) <==> DigitsValue(v) <= price
  {
    assert '-' !in v by {
      forall i | 0 <= i < |v| ensures v[i] != '-' { assert IsDigit(v[i]); }
    }
    SplitNoSeparator(v, '-');
  }

  /** The four bands the price dropdown offers. */
  lemma OfferedBands(price: int)
    ensures WithinBand("0-5000", price) <==> 0 <= price <= 5000
    ensures WithinBand("5000-10000", price) <==> 5000 <= price <= 10000
    ensures WithinBand("10000-20000", price) <==> 10000 <= price <= 20000
    ensures WithinBand("20000-", price) <==> 20000 <= price
  {
    BandUnder5000(price);
    Band5000To10000(price);
    Band10000To20000(price);
    BandAbove20000(price);
  }

  lemma BandUnder5000(price: int)
    ensures WithinBand("0-5000", price) <==> 0 <= price <= 5000
  {
    WithinDigitBand("0", "5000", price);
    assert "0" + "-" + "5000" == "0-5000";
    assert DigitsValue("0") == 0 by { assert "0"[..0] == ""; }
    Value5000();
  }

  lemma Band5000To10000(price: int)
    ensures WithinBand("5000-10000", price) <==> 5000 <= price <= 10000
  {
    WithinDigitBand("5000", "10000", price);
    assert "5000" + "-" + "10000" == "5000-10000";
    Value5000();
    Value10000();
  }

  lemma Band10000To20000(price: int)
    ensures WithinBand("10000-20000", price) <==> 10000 <= price <= 20000
  {
    WithinDigitBand("10000", "20000", price);
    assert "10000" + "-" + "20000" == "10000-20000";
    Value10000();
    Value20000();
  }

  lemma BandAbove20000(price: int)
    ensures WithinBand("20000-", price) <==> 20000 <= price
  {
    WithinDigitBand("20000", "", price);
    assert "20000" + "-" + "" == "20000-";
    Value20000();
  }

  lemma Value5000()
    ensures DigitsValue("5000") == 5000
  {
    assert "5000"[..3] == "500" && "500"[..2] == "50" && "50"[..1] == "5" && "5"[..0] == "";
  }

  lemma Value10000()
    ensures DigitsValue("10000") == 10000
  {
    assert "10000"[..4] == "1000" && "1000"[..3] == "100" && "100"[..2] == "10";
    assert "10"[..1] == "1" && "1"[..0] == "";
  }

  lemma Value20000()
    ensures DigitsValue("20000") == 20000
  {
    assert "20000"[..4] == "2000" && "2000"[..3] == "200" && "200"[..2] == "20";
    assert "20"[..1] == "2" && "2"[..0] == "";
  }

  // ---------------------------------------------------------------------------
  // The filter predicate

  /** The body of the `products.filter` callback. */
  function Matches(f: Filters, p: Product): (b: bool)
    ensures f == ClearAllFilters() ==> b
    ensures b && f.price != "" ==> p.price >= 0
  {
    && (f.size == "" || p.size == f.size)
    && (f.price == "" || WithinBand(f.price, p.price))
    && (f.fabric == "" || p.fabric == f.fabric)
    && (f.color == "" || p.color == f.color)
  }

  function MatchFn(f: Filters): Product -> bool {
    (p: Product) => Matches(f, p)
  }

  /** `filteredProducts`: the catalog entries the selection admits, in
      catalog order. */
  function FilterProducts(catalog: seq<Product>, f: Filters): (r: seq<Product>)
    ensures forall p :: p in r <==> p in catalog && Matches(f, p)
    ensures forall p :: p in catalog ==> multiset(r)[p] == if Matches(f, p) then multiset(catalog)[p] else 0
    ensures IsSubsequence(r, catalog)
  {
    FilterIsSubsequence(catalog, MatchFn(f));
    Filter(catalog, MatchFn(f))
  }

  /** With nothing selected the whole catalog is listed, in order. */
  lemma EmptySelectionListsAll(catalog: seq<Product>)
    ensures FilterProducts(catalog, ClearAllFilters()) == catalog
  {
    FilterKeepsAll(catalog, MatchFn(ClearAllFilters()));
  }

  /** Filtering the listing again with the same selection changes nothing. */
  lemma RefilterIsIdentity(catalog: seq<Product>, f: Filters)
    ensures FilterProducts(FilterProducts(catalog, f), f) == FilterProducts(catalog, f)
  {
    FilterIdempotent(catalog, MatchFn(f));
  }

  /** Setting a key that was empty can only narrow the listing: the new list
      is the old list filtered further. */
  lemma NarrowingShrinks(catalog: seq<Product>, f: Filters, key: FilterKey, value: string)
    requires Get(f, key) == ""
    ensures var g := UpdateFilter(f, key, value);
      FilterProducts(FilterProducts(catalog, f), g) == FilterProducts(catalog, g)
      && IsSubsequence(FilterProducts(catalog, g), FilterProducts(catalog, f))
  {
    var g := UpdateFilter(f, key, value);
    forall p | p in catalog && MatchFn(g)(p) ensures MatchFn(f)(p) {
      assert Matches(g, p);
    }
    FilterOfFilter(catalog, MatchFn(f), MatchFn(g));
    FilterIsSubsequence(FilterProducts(catalog, f), MatchFn(g));
  }

  /** Size, fabric and colour compare exactly, letter case included. */
  lemma ExactAttributeMatch(f: Filters, p: Product)
    requires Matches(f, p)
    ensures f.size != "" ==> p.size == f.size
    ensures f.fabric != "" ==> p.fabric == f.fabric
    ensures f.color != "" ==> p.color == f.color
  {
  }

  // ---------------------------------------------------------------------------
  // Image carousel

  /** `(prev + 1) % product.images.length`; `None` is the `NaN` an empty
      image list produces. */
  function NextImageIndex(prev: int, imageCount: nat): (next: Option<int>)
    ensures imageCount == 0 <==> next == None
    ensures imageCount > 0 && prev >= -1 ==> next.Some? && 0 <= next.value < imageCount
    ensures imageCount > 0 && -1 <= prev < imageCount ==>
      next == Some(if prev + 1 == imageCount then 0 else prev + 1)
  {
    if imageCount > 0 && -1 <= prev < imageCount then
      RemStep(prev + 1, imageCount);
      Rem(prev + 1, imageCount)
    else Rem(prev + 1, imageCount)
  }

  // ---------------------------------------------------------------------------
  // Component state

  /** `ProductsPage`'s `filters` state and the listing derived from it. */
  class ProductListing {
    var filters: Filters
    const catalog: seq<Product>

    /** The first render: nothing selected, so the whole catalog is listed. */
    constructor (catalog: seq<Product>)
      ensures this.catalog == catalog && filters == ClearAllFilters()
      ensures Listed() == catalog
    {
      this.catalog := catalog;
      filters := ClearAllFilters();
      new;
      EmptySelectionListsAll(catalog);
    }

    /** `filteredProducts` for the current selection. */
    function Listed(): (r: seq<Product>)
      reads this
      ensures forall p :: p in r <==> p in catalog && Matches(filters, p)
      ensures IsSubsequence(r, catalog)
    {
      FilterProducts(catalog, filters)
    }

    /** Picking an option in one of the dropdowns:
        `setFilters(prev => ({ ...prev, [filterKey]: opt.value }))`. */
    method SelectOption(key: FilterKey, value: string)
      modifies this
      ensures filters == UpdateFilter(old(filters), key, value)
      ensures old(Get(filters, key)) == "" ==> IsSubsequence(Listed(), old(Listed()))
    {
      if Get(filters, key) == "" {
        NarrowingShrinks(catalog, filters, key, value);
      }
      filters := UpdateFilter(filters, key, value);
    }

    /** The "Clear All Filters" button of the empty-result message. */
    method ClearAll()
      modifies this
      ensures filters == ClearAllFilters()
      ensures Listed() == catalog
    {
      filters := ClearAllFilters();
      EmptySelectionListsAll(catalog);
    }
  }

  /** A product card's `currentImageIndex`; `None` is the `NaN` that an
      empty image list produces and that then stays `NaN`. */
  class ProductCard {
    var currentImageIndex: Option<int>
    const imageCount: nat

    /** With images, the index always names one of them. */
    ghost predicate Valid()
      reads this
    {
      imageCount > 0 ==> currentImageIndex.Some? && 0 <= currentImageIndex.value < imageCount
    }

    constructor (imageCount: nat)
      ensures this.imageCount == imageCount && currentImageIndex == Some(0)
      ensures Valid()
    {
      this.imageCount := imageCount;
      currentImageIndex := Some(0);
    }

    /** The 3-second interval: `setCurrentImageIndex(prev => (prev + 1) % n)`. */
    method Tick()
      requires Valid()
      modifies this
      ensures old(currentImageIndex).Some? ==>
        currentImageIndex == NextImageIndex(old(currentImageIndex).value, imageCount)
      ensures old(currentImageIndex).None? ==> currentImageIndex == None
      ensures imageCount > 0 ==> var prev := old(currentImageIndex).value;
        currentImageIndex == Some(if prev + 1 == imageCount then 0 else prev + 1)
      ensures Valid()
    {
      match currentImageIndex {
        case Some(prev) => currentImageIndex := NextImageIndex(prev, imageCount);
        case None =>
      }
    }

    /** A click on thumbnail `idx`; only the first four images have one. */
    method SelectImage(idx: int)
      requires 0 <= idx < imageCount && idx < 4
      modifies this
      ensures currentImageIndex == Some(idx)
      ensures Valid()
    {
      currentImageIndex := Some(idx);
    }
  }
}
