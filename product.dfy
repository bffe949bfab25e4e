/** ShoppingAssistant.Models.Product: a catalog product whose public constructor
    validates its arguments and throws on the first one that is invalid. Every property
    has a private setter that nothing outside the constructor calls, so the fields are
    `const` here: once built, a product never changes. */
module Models {
  import opened Wrappers
  import opened WhiteSpace
  import opened Doubles
  import Guids

  /** A value of the `Category` enum. Its members are declared in a file that is not part
      of this model; a C# enum variable can hold any value of its underlying `int`, and
      the constructor stores it unchecked. */
  datatype Category = Category(underlying: int)

  datatype ExceptionKind = ArgumentException | ArgumentOutOfRangeException

  /** Whether a `catch (ArgumentException)` handler sees an exception of this kind:
      `ArgumentOutOfRangeException` derives from `ArgumentException`. */
  predicate IsArgumentException(k: ExceptionKind) {
    k == ArgumentException || k == ArgumentOutOfRangeException
  }

  /** The exception the constructor throws: its type, the `paramName` it is given
      (`nameof(...)` of the offending parameter) and its message argument. */
  datatype CtorError = CtorError(kind: ExceptionKind, paramName: string, message: string)

  const NameError := CtorError(ArgumentException, "name", "Name cannot be null or empty.")
  const BrandError := CtorError(ArgumentException, "brand", "Brand cannot be null or empty.")
  const PriceError := CtorError(ArgumentOutOfRangeException, "price", "Price cannot be negative.")
  const RatingError := CtorError(ArgumentOutOfRangeException, "rating", "Rating must be between 0 and 5.")

  const IdPrefix := "product_"

  /** The Id a product receives for the GUID the runtime generates: `$"product_{guid}"`. */
  function IdFor(guid: Guids.Guid): string {
    IdPrefix + Guids.Format(guid)
  }

  /** The shape of every product Id: the prefix followed by the text of some GUID. */
  predicate IsProductId(id: string) {
    |id| >= |IdPrefix| && id[..|IdPrefix|] == IdPrefix && Guids.Parse(id[|IdPrefix|..]).Some?
  }

  /** What the constructor accepts as a name or brand: present and holding at least one
      character that is not white space. */
  ghost predicate NonBlank(s: Option<string>) {
    s.Some? && HasVisibleChar(s.value)
  }

  /** What the constructor accepts as a rating: a finite number in [0, 5], both ends included. */
  predicate RatingInRange(rating: Double) {
    rating.Finite? && 0.0 <= rating.value <= 5.0
  }

  class Product {
    const id: string
    const name: string
    const brand: string
    const category: Category
    const price: real
    const rating: Double
    const description: string

    /** The invariants of every product built through the public constructor. It reads
        only `const` fields, so no later change to the heap can make it false. */
    ghost predicate Valid() {
      IsProductId(id) && HasVisibleChar(name) && HasVisibleChar(brand) && price >= 0.0 && RatingInRange(rating)
    }

    /** The assignments of the constructor, reached once every check has passed; a null
        description is stored as the empty string. */
    constructor (guid: Guids.Guid, name: string, brand: string, category: Category, price: real,
                 rating: Double, description: Option<string>)
      requires HasVisibleChar(name) && HasVisibleChar(brand) && price >= 0.0 && RatingInRange(rating)
      ensures Valid()
      ensures this.id == IdFor(guid)
      ensures this.name == name && this.brand == brand && this.category == category
      ensures this.price == price && this.rating == rating
      ensures this.description == description.GetOr("")
    {
      IdIsProductId(guid);
      this.id := IdFor(guid);
      this.name := name;
      this.brand := brand;
      this.category := category;
      this.price := price;
      this.rating := rating;
      this.description := description.GetOr("");
    }

    /** The public constructor. `guid` stands for the value of `Guid.CreateVersion7()`.
        The checks run in the order name, brand, price, rating; the first that fails
        decides the exception. The category and the description are never a reason to
        fail, and accepted strings are stored exactly as given. */
    static method Create(guid: Guids.Guid, name: Option<string>, brand: Option<string>, category: Category,
                         price: real, rating: Double, description: Option<string>)
      returns (r: Result<Product, CtorError>)
      ensures r.Success? <==> NonBlank(name) && NonBlank(brand) && price >= 0.0 && RatingInRange(rating)
      ensures !NonBlank(name) ==> r == Failure(NameError)
      ensures NonBlank(name) && !NonBlank(brand) ==> r == Failure(BrandError)
      ensures NonBlank(name) && NonBlank(brand) && price < 0.0 ==> r == Failure(PriceError)
      ensures NonBlank(name) && NonBlank(brand) && price >= 0.0 && !RatingInRange(rating) ==> r == Failure(RatingError)
      ensures r.Failure? ==> IsArgumentException(r.error.kind)
      ensures r.Success? ==> r.value.Valid()
      ensures r.Success? ==> r.value.id == IdFor(guid) && r.value.name == name.value && r.value.brand == brand.value
      ensures r.Success? ==> r.value.category == category && r.value.price == price && r.value.rating == rating
      ensures r.Success? ==> r.value.description == (if description.None? then "" else description.value)
    {
      IsNullOrWhiteSpaceIff(name);
      IsNullOrWhiteSpaceIff(brand);
      BetweenIff(rating, 0.0, 5.0);
      IdIsProductId(guid);
      if IsNullOrWhiteSpace(name) {
        return Failure(NameError);
      }
      if IsNullOrWhiteSpace(brand) {
        return Failure(BrandError);
      }
      if !(price >= 0.0) {
        return Failure(PriceError);
      }
      if !(AtLeast(rating, 0.0) && AtMost(rating, 5.0)) {
        return Failure(RatingError);
      }
      var p := new Product(guid, name.value, brand.value, category, price, rating, description);
      return Success(p);
    }
  }

  /** A valid product's name and brand are still non-empty after trimming. */
  lemma ValidSurvivesTrim(p: Product)
    requires p.Valid()
    ensures Trim(p.name) != [] && Trim(p.brand) != []
  {
    AllWhiteSpaceIff(p.name);
    AllWhiteSpaceIff(p.brand);
    TrimEmptyIff(p.name);
    TrimEmptyIff(p.brand);
  }

  /** The Id starts with the prefix and the rest reads back as the GUID it was made from. */
  lemma IdRoundTrip(guid: Guids.Guid)
    ensures |IdFor(guid)| == |IdPrefix| + 36
    ensures IdFor(guid)[..|IdPrefix|] == IdPrefix
    ensures Guids.Parse(IdFor(guid)[|IdPrefix|..]) == Some(guid)
  {
    Guids.FormatShape(guid);
    Guids.ParseFormat(guid);
    assert IdFor(guid)[|IdPrefix|..] == Guids.Format(guid);
  }

  lemma IdIsProductId(guid: Guids.Guid)
    ensures IsProductId(IdFor(guid))
  {
    IdRoundTrip(guid);
  }

  /** Products built from distinct GUIDs have distinct Ids. */
  lemma IdInjective(g1: Guids.Guid, g2: Guids.Guid)
    ensures IdFor(g1) == IdFor(g2) ==> g1 == g2
  {
    IdRoundTrip(g1);
    IdRoundTrip(g2);
  }

  /** `IsProductId` holds exactly of the Ids the constructor can produce. */
  lemma IsProductIdIff(id: string)
    ensures IsProductId(id) <==> exists g: Guids.Guid :: IdFor(g) == id
  {
    if IsProductId(id) {
      var g := Guids.Parse(id[|IdPrefix|..]).value;
      Guids.FormatParse(id[|IdPrefix|..]);
      assert id == IdPrefix + id[|IdPrefix|..];
      assert IdFor(g) == id;
    }
    forall g: Guids.Guid | IdFor(g) == id
      ensures IsProductId(id)
    {
      IdIsProductId(g);
    }
  }
}
