/** ProductMapper: converts between the Product entity and ProductDto.
    A null argument is the Option's None; toDto reads the entity's state. */
module ProductMapper {
  import opened Wrappers
  import opened ProductModel

  /** toDto: empty for a null entity, otherwise name, description and price. */
  function ToDto(product: Option<ProductRow>): (r: Option<ProductDto>)
    ensures r.None? <==> product.None?
  {
    match product
    case None => None
    case Some(p) => Some(ProductDto(p.name, p.description, p.price))
  }

  /** toEntity: empty for a null DTO, otherwise a fresh entity without id,
      filled through the setters; mapping it back gives the DTO again. */
  method ToEntity(dto: Option<ProductDto>) returns (r: Option<Product>)
    ensures r.None? <==> dto.None?
    ensures r.Some? ==> fresh(r.value) && r.value.id.None?
    ensures r.Some? ==> ToDto(Some(r.value.State())) == dto
  {
    if dto.None? {
      return None;
    }
    var product := new Product();
    product.name := dto.value.name;
    product.description := dto.value.description;
    product.price := dto.value.price;
    return Some(product);
  }

  /** updateEntityFromDto: a non-null DTO overwrites name, description and
      price in place, keeping the id; a null DTO changes nothing. Either way the
      same object is returned. */
  method UpdateEntityFromDto(product: Product, dto: Option<ProductDto>) returns (r: Product)
    modifies product
    ensures r == product
    ensures product.id == old(product.id)
    ensures dto.None? ==> product.State() == old(product.State())
    ensures dto.Some? ==> ToDto(Some(product.State())) == dto
  {
    if dto.Some? {
      product.name := dto.value.name;
      product.description := dto.value.description;
      product.price := dto.value.price;
    }
    return product;
  }

  /** Two entities map to the same DTO exactly when they differ at most in their id. */
  lemma ToDtoForgetsOnlyId(a: ProductRow, b: ProductRow)
    ensures ToDto(Some(a)) == ToDto(Some(b)) <==> a.(id := None) == b.(id := None)
  {
  }
}
