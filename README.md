# ShoppingAssistant `Product` — a verified model of the validating constructor

ShoppingAssistant is a shopping chat assistant built on a product catalog. Most of
its code is wiring into external libraries, or stubs. The one piece of real logic is
the public constructor of `ShoppingAssistant.Models.Product`. It takes a name, brand,
category, price, rating and description, and it does three things:

- It gives the product an Id `"product_" + <GUID>`.
- It checks the arguments in a fixed order, throwing `ArgumentException` or
  `ArgumentOutOfRangeException` on the first bad one.
- It stores every argument unchanged, except that a null description becomes `""`.

All properties have private setters, and nothing calls them after construction. So
the invariants hold for the product's whole lifetime.

Modules:

- `Models` (`product.dfy`) holds the class `Product`. Its fields are `const`, because
  the source never reassigns them. The static method `Product.Create` models the public
  constructor. It returns `Result<Product, CtorError>`, and the error records the
  exception type, the `paramName` (`nameof(...)`) and the message. The Dafny constructor
  models only the run of assignments once every check has passed, because a Dafny
  constructor cannot throw. `Valid()` collects the invariants. It reads only `const`
  fields, so no later heap update can change its value.
- `WhiteSpace` (`whitespace.dfy`) models .NET's `char.IsWhiteSpace` as its set of 25
  characters. It defines `string.IsNullOrWhiteSpace` as a front-to-back scan. It also
  has a quantified reference definition and `string.Trim`, with lemmas linking the three.
- `Doubles` (`doubles.dfy`) models the rating as a finite real, an infinity or NaN.
  `>=` and `<=` follow IEEE 754, so NaN fails every comparison.
- `Guids` (`guids.dfy`) models a GUID as its 32 hexadecimal digit values. `Format` is
  .NET's default "D" text (8-4-4-4-12 lower-case digits). `Parse` is its inverse, and
  it is used to prove that an Id determines its GUID.
- `Wrappers` (`wrappers.dfy`) holds `Option`, which models a C# null, and `Result`.

Inputs that the model takes as parameters:

- The value of `Guid.CreateVersion7()` is the `guid` parameter of `Create`.
- `decimal price` is an exact `real`.

Facts about the code that the model keeps:

- The constructor throws two exception types. Name and brand failures throw
  `ArgumentException`; price and rating failures throw `ArgumentOutOfRangeException`.
  The second type derives from the first, so a `catch (ArgumentException)` handler
  sees every constructor failure. `Create`'s contract states this through
  `IsArgumentException`.
- `Category` is stored unchecked; no membership test is made on it.
- The constructor tests `IsNullOrWhiteSpace`, not `Trim`. `Models.ValidSurvivesTrim`
  shows that a valid name and brand are still non-empty after `Trim`.
- The class comment at `ShoppingAssistant/Models/Product.cs:9-10` calls every property
  mutable. The setters are private and never called, so the model treats the fields
  as constant.
- The Dafny constructor requires the checks to have passed and establishes `Valid()`,
  so every `Product` built in the model satisfies the invariants.

## Model

| member | source | states |
|---|---|---|
| `Models.Product.Create` | ShoppingAssistant/Models/Product.cs:18-48 | succeeds exactly when the name and the brand are present and hold a non-white-space character, price >= 0, and the rating is a finite value in [0, 5] with both ends accepted; otherwise it fails with the first failing check in the order name, brand, price, rating, with that check's exception type, parameter name and message, and every failure is an `ArgumentException` or a subclass of it; GUID, category and description never cause a failure; on success the product is Valid, its Id is `"product_"` + the GUID text, and name, brand, category, price and rating are stored exactly as given (no trimming, no clamping), with a null description stored as "" |
| `Models.Product.constructor` | ShoppingAssistant/Models/Product.cs:27-47 | once the checks have passed, each field equals its argument, the Id is `IdFor(guid)`, the description is the argument or "" when it is null, and the new product is Valid |
| `Models.ValidSurvivesTrim` | ShoppingAssistant/Models/Product.cs:29-35 | the name and brand of a valid product are non-empty after `Trim` |
| `Models.IdRoundTrip` | ShoppingAssistant/Models/Product.cs:27 | an Id is 44 characters long, starts with `"product_"`, and the rest reads back as exactly the GUID it was built from |
| `Models.IdIsProductId` | ShoppingAssistant/Models/Product.cs:27 | every Id built from a GUID has the product-Id shape |
| `Models.IdInjective` | ShoppingAssistant/Models/Product.cs:27 | distinct GUIDs give distinct Ids, so Ids are unique whenever the GUIDs are |
| `Models.IsProductIdIff` | ShoppingAssistant/Models/Product.cs:27 | a string has the product-Id shape if and only if it is the Id of some GUID |
| `WhiteSpace.AllWhiteSpaceIff` | ShoppingAssistant/Models/Product.cs:29-35 | the front-to-back scan of `IsNullOrWhiteSpace` accepts a string if and only if no character of it lies outside the white-space set |
| `WhiteSpace.IsNullOrWhiteSpaceIff` | ShoppingAssistant/Models/Product.cs:29-35 | `IsNullOrWhiteSpace` is false exactly for a non-null string with a non-white-space character |
| `WhiteSpace.TrimEmptyIff` | ShoppingAssistant/Models/Product.cs:29-35 | `Trim` leaves nothing if and only if the string is all white space, so the blank test equals "empty after trimming" |
| `Doubles.BetweenIff` | ShoppingAssistant/Models/Product.cs:43-45 | `rating >= 0 && rating <= 5` holds exactly for finite ratings in [0, 5]; NaN and both infinities are rejected |
| `Guids.FormatShape` | ShoppingAssistant/Models/Product.cs:27 | the GUID text is 36 characters, with hyphens at positions 8, 13, 18 and 23 and hexadecimal digits everywhere else |
| `Guids.ParseFormat` | ShoppingAssistant/Models/Product.cs:27 | reading back a formatted GUID gives the same GUID |
| `Guids.FormatParse` | ShoppingAssistant/Models/Product.cs:27 | every text that reads back as a GUID is exactly that GUID's formatted text |
| `Guids.FormatInjective` | ShoppingAssistant/Models/Product.cs:27 | distinct GUIDs print as distinct texts |

## Left out

- The private parameterless constructor (`ShoppingAssistant/Models/Product.cs:13`): Entity Framework uses it to load products from storage, and it skips validation. Products built that way need not satisfy `Valid()`.
- How GUIDs are generated (`Guid.CreateVersion7()`): it depends on time and randomness, so the GUID is a parameter. The model does not capture its version and variant bits or its timestamp. Any 128-bit value is accepted.
- Models.Product.Create: does not state that the product is a freshly allocated object. Every other part of the new object's state is stated.
- `double` details: rounding, the sign of zero, and the distinct NaN payloads are not modelled. The rating is only compared, never computed with.
- `decimal` details: its 96-bit range and 28-digit scale are not modelled. A price is any exact rational number.
- C# `char` is a UTF-16 code unit. Dafny's `char` is a Unicode scalar value, so lone surrogate code units cannot occur in this model. None of them is white space.
- Exception `Message` text: .NET appends the parameter name to the message. The model records the message argument and the parameter name separately.
- The `Category` enum's member list lives in a file that is not part of this model. A category is modelled as its underlying `int`.
- The catalog search, filter, sort and details operations in `ShoppingAssistant/Plugins/ProductSearchPlugin.cs` and `ShoppingAssistant/Services/Shopping/ProductCatalogService.cs`: their bodies are stubs that return an empty list, null or nothing, so there is no behaviour to model.
- The conversation loop, dependency-injection wiring, configuration, prompt loading and vector-store schema (`Program.cs` and the builder extensions): these are calls into external libraries.
- `ProductResponse`, `UserMessage`, `AzureOpenAISettings`: data carriers with no behaviour.
