/** The product service's records: the ProductDto exchanged over HTTP with its
    bean-validation constraints, and the Product entity stored in tb_products. */
module ProductModel {
  import opened Wrappers
  import Text

  /** ProductDto (package ms_product.model.dto). */
  datatype ProductDto = ProductDto(name: Option<string>, description: Option<string>, price: Option<real>)

  /** The column values of a Product entity. */
  datatype ProductRow = ProductRow(id: Option<int>, name: Option<string>, description: Option<string>, price: Option<real>)

  /** The Product entity: a mutable object with an id generated on insert. */
  class Product {
    var id: Option<int>
    var name: Option<string>
    var description: Option<string>
    var price: Option<real>

    /** The no-argument constructor: every field null. */
    constructor ()
      ensures State() == ProductRow(None, None, None, None)
    {
      id, name, description, price := None, None, None, None;
    }

    /** The all-fields constructor. */
    constructor Of(row: ProductRow)
      ensures State() == row
    {
      id, name, description, price := row.id, row.name, row.description, row.price;
    }

    function State(): ProductRow
      reads this
    {
      ProductRow(id, name, description, price)
    }
  }

  /** One constraint violation: the property and the annotation's message. */
  datatype FieldError = FieldError(field: string, message: string)

  const NameBlankMessage := "O nome do produto não pode ser vazio."
  const NameSizeMessage := "O nome do produto deve ter entre 3 e 100 caracteres."
  const DescriptionSizeMessage := "A descrição do produto não pode exceder 500 caracteres."
  const PriceNullMessage := "O preço do produto não pode ser nulo."
  const PriceMinMessage := "O preço do produto deve ser um valor positivo ou zero."

  /** @NotBlank as Hibernate Validator checks it: not null, and something is left after String.trim. */
  predicate NotBlank(s: Option<string>) {
    s.Some? && |Text.Trim(s.value)| > 0
  }

  /** @NotBlank @Size(min = 3, max = 100) name, @Size(max = 500) description,
      @NotNull @DecimalMin("0.0") price. @Size lets null through. */
  predicate ValidProductDto(d: ProductDto) {
    && NotBlank(d.name) && 3 <= |d.name.value| <= 100
    && (d.description.Some? ==> |d.description.value| <= 500)
    && d.price.Some? && d.price.value >= 0.0
  }

  /** Every violation of a product DTO, with the annotation's message
      (the order of the list carries no meaning). */
  function Violations(d: ProductDto): seq<FieldError> {
    (if NotBlank(d.name) then [] else [FieldError("name", NameBlankMessage)])
    + (match d.name
       case Some(n) => if 3 <= |n| <= 100 then [] else [FieldError("name", NameSizeMessage)]
       case None => [])
    + (match d.description
       case Some(s) => if |s| <= 500 then [] else [FieldError("description", DescriptionSizeMessage)]
       case None => [])
    + (match d.price
       case None => [FieldError("price", PriceNullMessage)]
       case Some(p) => if p >= 0.0 then [] else [FieldError("price", PriceMinMessage)])
  }

  /** A product DTO is valid exactly when the validator reports no violation. */
  lemma ViolationsEmptyIffValid(d: ProductDto)
    ensures Violations(d) == [] <==> ValidProductDto(d)
  {
  }

  /** @NotBlank holds exactly when the name has a character above U+0020. */
  lemma NotBlankMeansVisibleCharacter(name: string)
    ensures NotBlank(Some(name)) <==> exists i :: 0 <= i < |name| && name[i] > ' '
  {
    Text.TrimNonEmpty(name);
  }

  /** Boundary cases of the constraints: an empty name, a two-letter name, a
      null price and a negative price are rejected; a zero price passes. */
  lemma ConstraintBoundaries()
    ensures FieldError("name", NameBlankMessage) in Violations(ProductDto(Some(""), None, Some(1.0)))
    ensures !ValidProductDto(ProductDto(Some("ab"), None, Some(1.0)))
    ensures !ValidProductDto(ProductDto(Some("abc"), None, None))
    ensures !ValidProductDto(ProductDto(Some("abc"), None, Some(-1.00)))
    ensures ValidProductDto(ProductDto(Some("abc"), None, Some(0.0)))
  {
    NotBlankMeansVisibleCharacter("abc");
    assert "abc"[0] > ' ';
  }
}
