/** The filter selection shared by the product listing and its filter panel:
    four optional constraints, editing one key or clearing them all, and the
    text the panel shows for the active price band and the result count. */
module ProductFilter {
  import opened JsBuiltins

  datatype Filters = Filters(size: string, price: string, fabric: string, color: string)

  datatype FilterKey = Size | Price | Fabric | Color

  /** `filters[key]`. */
  function Get(f: Filters, key: FilterKey): string {
    match key
    case Size => f.size
    case Price => f.price
    case Fabric => f.fabric
    case Color => f.color
  }

  /** `{ ...filters, [key]: value }`: `updateFilter(key, value)` in the panel,
      and the option handler of the listing's dropdowns. */
  function UpdateFilter(f: Filters, key: FilterKey, value: string): (r: Filters)
    ensures Get(r, key) == value
    ensures forall other :: other != key ==> Get(r, other) == Get(f, other)
  {
    match key
    case Size => f.(size := value)
    case Price => f.(price := value)
    case Fabric => f.(fabric := value)
    case Color => f.(color := value)
  }

  /** `clearAllFilters()` and the listing's "Clear All Filters" button. */
  function ClearAllFilters(): (r: Filters)
    ensures forall key :: Get(r, key) == ""
  {
    Filters("", "", "", "")
  }

  /** The condition guarding the "Active Filters" summary. */
  function HasActiveFilters(f: Filters): (b: bool)
    ensures b <==> f != ClearAllFilters()
  {
    f.size != "" || f.price != "" || f.fabric != "" || f.color != ""
  }

  /** The summary is shown exactly when some key is set, so never right
      after clearing, and always after setting a key to a non-empty value. */
  lemma ActiveFiltersIffSomeKeySet(f: Filters, key: FilterKey, value: string)
    ensures HasActiveFilters(f) <==> exists k :: Get(f, k) != ""
    ensures !HasActiveFilters(ClearAllFilters())
    ensures value != "" ==> HasActiveFilters(UpdateFilter(f, key, value))
  {
    if f.size != "" { assert Get(f, Size) != ""; }
    if f.price != "" { assert Get(f, Price) != ""; }
    if f.fabric != "" { assert Get(f, Fabric) != ""; }
    if f.color != "" { assert Get(f, Color) != ""; }
  }

  const Rupee: string := "\U{20B9}"

  /** The text after "Price: " in the summary: a value containing "-" has
      its first "-" replaced by " - ₹" and is prefixed with "₹"; any other
      value is shown as "Above ₹" followed by the value. */
  function PriceLabel(price: string): (shown: string)
    ensures '-' in price ==> StartsWith(shown, Rupee) && |shown| == |price| + 2 + 2 * |Rupee|
    ensures '-' !in price ==> shown == "Above " + Rupee + price
  {
    if '-' in price then Rupee + ReplaceFirst(price, '-', " - " + Rupee)
    else "Above " + Rupee + price
  }

  /** A band `lo-hi` reads "₹lo - ₹hi"; an open band `lo-` reads "₹lo - ₹". */
  lemma PriceLabelOfBand(lo: string, hi: string)
    requires '-' !in lo
    ensures PriceLabel(lo + "-" + hi) == Rupee + lo + " - " + Rupee + hi
  {
    assert '-' in lo + "-" + hi by {
      assert (lo + "-" + hi)[|lo|] == '-';
    }
    ReplaceFirstAt(lo, hi, '-', " - " + Rupee);
  }

  /** `${resultsCount} product${resultsCount !== 1 ? "s" : ""} found`: the
      label starts with the count, which reads back exactly, and is plural
      for every count except 1. */
  function ResultsLabel(count: nat): (text: string)
    ensures var k := |DecimalString(count)|;
      && k <= |text|
      && IsDigits(text[..k])
      && DigitsValue(text[..k]) == count
      && text[k..] == (if count == 1 then " product found" else " products found")
  {
    var digits := DecimalString(count);
    var tail := " product" + (if count != 1 then "s" else "") + " found";
    assert tail == if count == 1 then " product found" else " products found";
    var text := digits + tail;
    assert text[..|digits|] == digits && text[|digits|..] == tail;
    DecimalRoundTrip(count);
    text
  }

  /** The panel's open/closed state. */
  class FilterPanel {
    var showFilters: bool

    constructor ()
      ensures !showFilters
    {
      showFilters := false;
    }

    /** The "Filters" button. */
    method Toggle()
      modifies this
      ensures showFilters == !old(showFilters)
    {
      showFilters := !showFilters;
    }

    /** A mousedown on the document: one outside the panel closes it. */
    method MouseDown(outside: bool)
      modifies this
      ensures showFilters == (old(showFilters) && !outside)
    {
      if outside {
        showFilters := false;
      }
    }
  }
}
