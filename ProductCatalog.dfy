/** ProductService: find, save, update and delete products. The JPA
    repository is the map `rows` from id to the stored entity state, with ids
    generated by an identity counter; a loaded entity is a fresh Product object. */
module ProductCatalog {
  import opened Wrappers
  import opened ProductModel
  import opened ProductMapper
  import Text

  /** The exceptions the service throws. */
  datatype ServiceError =
    | NotFound(id: int)                // ProductNotFoundException
    | IllegalArgument(message: string) // IllegalArgumentException
    | IllegalState(message: string)    // IllegalStateException

  const NotFoundPrefix := "Produto com ID "
  const NotFoundSuffix := " não encontrado."
  const FindMappingFailed := "Erro ao mapear produto para DTO."
  const SaveNullDto := "DTO do produto não pode ser nulo para salvar."
  const SaveNameRequired := "Produto deve ter um nome."
  const SaveToEntityFailed := "Erro ao converter DTO para entidade Product."
  const SaveMappingFailed := "Erro ao mapear produto salvo para DTO."
  const UpdateNullDto := "DTO do produto não pode ser nulo para atualização."
  const UpdateMappingFailed := "Erro ao mapear produto atualizado para DTO."

  /** The message of ProductNotFoundException. */
  function NotFoundMessage(id: int): string {
    NotFoundPrefix + Text.DecimalString(id) + NotFoundSuffix
  }

  /** The not-found message names the id it was raised for. */
  lemma NotFoundMessageNamesId(id: nat)
    ensures NotFoundPrefix <= NotFoundMessage(id)
    ensures Text.ParseDigits(Text.LeadingDigits(NotFoundMessage(id)[|NotFoundPrefix|..])) == id
  {
    assert NotFoundSuffix[0] == ' ';
    Text.NumberAfterPrefix(NotFoundPrefix, Text.NatDigits(id), NotFoundSuffix);
    Text.ParseNatDigits(id);
  }

  /** Optional.orElseThrow: the value, or the given exception when empty. */
  function OrElseThrow<T>(o: Option<T>, e: ServiceError): (r: Result<T, ServiceError>)
    ensures r.Success? <==> o.Some?
    ensures r.Success? ==> r.value == o.value
    ensures r.Failure? ==> r.error == e
  {
    match o
    case Some(v) => Success(v)
    case None => Failure(e)
  }

  /** Optional::stream flattened: the present values, in order. */
  function Present<T>(xs: seq<Option<T>>): seq<T> {
    if xs == [] then []
    else Present(xs[..|xs| - 1]) + (match xs[|xs| - 1] case None => [] case Some(v) => [v])
  }

  /** Exactly the present values survive, and nothing else. */
  lemma {:induction false} PresentKeepsExactlySome<T>(xs: seq<Option<T>>, v: T)
    ensures v in Present(xs) <==> Some(v) in xs
  {
    if xs != [] {
      var init := xs[..|xs| - 1];
      PresentKeepsExactlySome(init, v);
      assert xs == init + [xs[|xs| - 1]];
    }
  }

  /** With nothing absent, every value is kept in place. */
  lemma {:induction false} PresentOfAllSome<T>(xs: seq<Option<T>>)
    requires forall i :: 0 <= i < |xs| ==> xs[i].Some?
    ensures |Present(xs)| == |xs|
    ensures forall i :: 0 <= i < |xs| ==> Present(xs)[i] == xs[i].value
  {
    if xs != [] {
      var init := xs[..|xs| - 1];
      PresentOfAllSome(init);
      assert forall i :: 0 <= i < |init| ==> init[i] == xs[i];
    }
  }

  /** The stored rows with ids lo..hi-1, in ascending id order. */
  function RowsInIdOrder(rows: map<int, ProductRow>, lo: int, hi: int): seq<ProductRow>
    decreases hi - lo
  {
    if hi <= lo then []
    else RowsInIdOrder(rows, lo, hi - 1) + (if hi - 1 in rows then [rows[hi - 1]] else [])
  }

  /** The stored ids in lo..hi-1. */
  function IdsBetween(rows: map<int, ProductRow>, lo: int, hi: int): set<int> {
    set id | id in rows && lo <= id < hi
  }

  /** Every stored row is filed under its own id. */
  ghost predicate RowsCarryIds(rows: map<int, ProductRow>) {
    forall id :: id in rows ==> rows[id].id == Some(id)
  }

  /** The listing holds one row per stored id in the range. */
  lemma {:induction false} RowsInIdOrderCount(rows: map<int, ProductRow>, lo: int, hi: int)
    ensures |RowsInIdOrder(rows, lo, hi)| == |IdsBetween(rows, lo, hi)|
    decreases hi - lo
  {
    if hi > lo {
      RowsInIdOrderCount(rows, lo, hi - 1);
      if hi - 1 in rows {
        assert IdsBetween(rows, lo, hi) == IdsBetween(rows, lo, hi - 1) + {hi - 1};
      } else {
        assert IdsBetween(rows, lo, hi) == IdsBetween(rows, lo, hi - 1);
      }
    } else {
      assert IdsBetween(rows, lo, hi) == {};
    }
  }

  /** Each listed row is the stored row of an id in the range, and every such row is listed. */
  lemma {:induction false} RowsInIdOrderMembers(rows: map<int, ProductRow>, lo: int, hi: int)
    requires RowsCarryIds(rows)
    ensures forall i :: 0 <= i < |RowsInIdOrder(rows, lo, hi)| ==>
              var row := RowsInIdOrder(rows, lo, hi)[i];
              row.id.Some? && row.id.value in rows && rows[row.id.value] == row && lo <= row.id.value < hi
    ensures forall id :: id in IdsBetween(rows, lo, hi) ==> rows[id] in RowsInIdOrder(rows, lo, hi)
    decreases hi - lo
  {
    if hi > lo {
      var before := RowsInIdOrder(rows, lo, hi - 1);
      RowsInIdOrderMembers(rows, lo, hi - 1);
      var listed := RowsInIdOrder(rows, lo, hi);
      assert forall i :: 0 <= i < |before| ==> listed[i] == before[i];
    }
  }

  /** The listed ids strictly ascend. */
  lemma {:induction false} RowsInIdOrderAscending(rows: map<int, ProductRow>, lo: int, hi: int)
    requires RowsCarryIds(rows)
    ensures forall i, j :: 0 <= i < j < |RowsInIdOrder(rows, lo, hi)| ==>
              RowsInIdOrder(rows, lo, hi)[i].id.Some? && RowsInIdOrder(rows, lo, hi)[j].id.Some? &&
              RowsInIdOrder(rows, lo, hi)[i].id.value < RowsInIdOrder(rows, lo, hi)[j].id.value
    decreases hi - lo
  {
    if hi > lo {
      RowsInIdOrderAscending(rows, lo, hi - 1);
      RowsInIdOrderMembers(rows, lo, hi - 1);
      var before := RowsInIdOrder(rows, lo, hi - 1);
      var listed := RowsInIdOrder(rows, lo, hi);
      forall i, j | 0 <= i < j < |listed|
        ensures listed[i].id.Some? && listed[j].id.Some? && listed[i].id.value < listed[j].id.value
      {
        assert listed[i] == before[i];
        if j < |before| {
          assert listed[j] == before[j];
        } else {
          assert listed[j] == rows[hi - 1];
        }
      }
    } else {
      assert RowsInIdOrder(rows, lo, hi) == [];
    }
  }

  /** findAll's pipeline: map each stored entity through toDto, keep the present ones. */
  function Listing(rows: map<int, ProductRow>, nextId: int): seq<ProductDto> {
    var ordered := RowsInIdOrder(rows, 1, nextId);
    Present(seq(|ordered|, i requires 0 <= i < |ordered| => ToDto(Some(ordered[i]))))
  }

  /** The listing is the stored products' DTOs in ascending id order, none dropped. */
  lemma {:induction false} ListingInIdOrder(rows: map<int, ProductRow>, nextId: int)
    ensures |Listing(rows, nextId)| == |RowsInIdOrder(rows, 1, nextId)|
    ensures forall i :: 0 <= i < |Listing(rows, nextId)| ==>
              Some(Listing(rows, nextId)[i]) == ToDto(Some(RowsInIdOrder(rows, 1, nextId)[i]))
  {
    var ordered := RowsInIdOrder(rows, 1, nextId);
    var dtos := seq(|ordered|, i requires 0 <= i < |ordered| => ToDto(Some(ordered[i])));
    PresentOfAllSome(dtos);
  }

  /** The listing of a repository whose ids all lie in 1..nextId-1 holds one
      DTO per stored product, and every stored product's DTO. */
  lemma ListingFacts(rows: map<int, ProductRow>, nextId: int)
    requires RowsCarryIds(rows)
    requires forall id :: id in rows ==> 1 <= id < nextId
    ensures |Listing(rows, nextId)| == |RowsInIdOrder(rows, 1, nextId)| == |rows|
    ensures forall i :: 0 <= i < |Listing(rows, nextId)| ==>
              Some(Listing(rows, nextId)[i]) == ToDto(Some(RowsInIdOrder(rows, 1, nextId)[i]))
    ensures forall i :: 0 <= i < |Listing(rows, nextId)| ==>
              exists id :: id in rows && Some(Listing(rows, nextId)[i]) == ToDto(Some(rows[id]))
    ensures forall id :: id in rows ==> ToDto(Some(rows[id])).value in Listing(rows, nextId)
  {
    var ordered := RowsInIdOrder(rows, 1, nextId);
    var listing := Listing(rows, nextId);
    ListingInIdOrder(rows, nextId);
    RowsInIdOrderCount(rows, 1, nextId);
    RowsInIdOrderMembers(rows, 1, nextId);
    assert IdsBetween(rows, 1, nextId) == rows.Keys;
    forall i | 0 <= i < |listing|
      ensures exists id :: id in rows && Some(listing[i]) == ToDto(Some(rows[id]))
    {
      var id := ordered[i].id.value;
      assert Some(listing[i]) == ToDto(Some(rows[id]));
    }
    forall id | id in rows ensures ToDto(Some(rows[id])).value in listing {
      var i :| 0 <= i < |ordered| && ordered[i] == rows[id];
      assert listing[i] == ToDto(Some(rows[id])).value;
    }
  }

  /** A DTO that passes validation with a plain-ASCII name also passes save's
      own name check. */
  lemma ValidAsciiNamePassesSaveCheck(d: ProductDto)
    requires ValidProductDto(d)
    requires forall i :: 0 <= i < |d.name.value| ==> d.name.value[i] < '\U{80}'
    ensures d.name.Some? && !Text.IsBlank(d.name.value)
  {
    NotBlankMeansVisibleCharacter(d.name.value);
    var i :| 0 <= i < |d.name.value| && d.name.value[i] > ' ';
    assert !Text.IsJavaWhitespace(d.name.value[i]);
  }

  /** @NotBlank trims only characters up to U+0020, while save uses
      String.isBlank: a name of three em spaces passes validation and is
      still refused by save. */
  lemma ValidNameCanBeBlank()
    ensures var d := ProductDto(Some("\U{2003}\U{2003}\U{2003}"), None, Some(1.0));
            ValidProductDto(d) && Text.IsBlank(d.name.value)
  {
    NotBlankMeansVisibleCharacter("\U{2003}\U{2003}\U{2003}");
    assert "\U{2003}\U{2003}\U{2003}"[0] > ' ';
  }

  class ProductService {
    /** The repository: entity state by id. */
    var rows: map<int, ProductRow>
    /** The next id the identity column hands out. */
    var nextId: int

    /** Ids are positive, below the counter, and stored under themselves. */
    ghost predicate Valid()
      reads this
    {
      && nextId >= 1
      && RowsCarryIds(rows)
      && forall id :: id in rows ==> 1 <= id < nextId
    }

    /** An empty repository. */
    constructor ()
      ensures Valid() && rows == map[] && nextId == 1
    {
      rows, nextId := map[], 1;
    }

    /** findAll: one DTO per stored product, by ascending id; the i-th is the
        i-th stored product's name, description and price. */
    function FindAll(): (r: seq<ProductDto>)
      reads this
      requires Valid()
      ensures |r| == |rows| == |RowsInIdOrder(rows, 1, nextId)|
      ensures forall i :: 0 <= i < |r| ==>
                exists id :: id in rows && Some(r[i]) == ToDto(Some(rows[id]))
      ensures forall id :: id in rows ==> ToDto(Some(rows[id])).value in r
      ensures forall i :: 0 <= i < |r| ==> Some(r[i]) == ToDto(Some(RowsInIdOrder(rows, 1, nextId)[i]))
    {
      ListingFacts(rows, nextId);
      Listing(rows, nextId)
    }

    /** findById: not-found for an absent id, without mapping anything;
        otherwise the stored product's DTO. */
    function FindById(id: int): (r: Result<ProductDto, ServiceError>)
      reads this
      ensures r.Failure? <==> id !in rows
      ensures id !in rows ==> r == Failure(NotFound(id))
      ensures id in rows ==> Some(r.value) == ToDto(Some(rows[id]))
    {
      if id !in rows then Failure(NotFound(id))
      else OrElseThrow(ToDto(Some(rows[id])), IllegalState(FindMappingFailed))
    }

    /** save: rejects a null DTO and a null or blank name, leaving the repository
        alone; otherwise stores a new product under a fresh id and returns its DTO. */
    method Save(dto: Option<ProductDto>) returns (r: Result<ProductDto, ServiceError>)
      requires Valid()
      modifies this
      ensures Valid()
      ensures dto.None? ==> r == Failure(IllegalArgument(SaveNullDto))
      ensures dto.Some? && (dto.value.name.None? || Text.IsBlank(dto.value.name.value)) ==>
                r == Failure(IllegalArgument(SaveNameRequired))
      ensures r.Failure? ==> rows == old(rows) && nextId == old(nextId)
      ensures dto.Some? && dto.value.name.Some? && !Text.IsBlank(dto.value.name.value) ==>
                var id := old(nextId);
                && r == Success(dto.value)
                && id !in old(rows)
                && rows == old(rows)[id := ProductRow(Some(id), dto.value.name, dto.value.description, dto.value.price)]
                && rows.Keys == old(rows).Keys + {id}
                && FindById(id) == Success(dto.value)
    {
      if dto.None? {
        return Failure(IllegalArgument(SaveNullDto));
      }
      var name := dto.value.name;
      if name.None? || Text.IsBlank(name.value) {
        return Failure(IllegalArgument(SaveNameRequired));
      }
      var entity := ToEntity(dto);
      if entity.None? {
        return Failure(IllegalState(SaveToEntityFailed));
      }
      var product := entity.value;
      // repository.save: the identity column assigns the next id
      product.id := Some(nextId);
      rows := rows[nextId := product.State()];
      nextId := nextId + 1;
      r := OrElseThrow(ToDto(Some(product.State())), IllegalState(SaveMappingFailed));
    }

    /** update: rejects a null DTO before looking anything up; not-found for an
        absent id; otherwise overwrites name, description and price of that
        product, keeping its id, and returns its DTO. Other products are untouched. */
    method Update(id: int, dto: Option<ProductDto>) returns (r: Result<ProductDto, ServiceError>)
      requires Valid()
      modifies this
      ensures Valid() && nextId == old(nextId)
      ensures dto.None? ==> r == Failure(IllegalArgument(UpdateNullDto))
      ensures dto.Some? && id !in old(rows) ==> r == Failure(NotFound(id))
      ensures r.Failure? ==> rows == old(rows)
      ensures dto.Some? && id in old(rows) ==>
                && r == Success(dto.value)
                && rows == old(rows)[id := ProductRow(Some(id), dto.value.name, dto.value.description, dto.value.price)]
                && rows.Keys == old(rows).Keys
                && FindById(id) == Success(dto.value)
    {
      if dto.None? {
        return Failure(IllegalArgument(UpdateNullDto));
      }
      if id !in rows {
        return Failure(NotFound(id));
      }
      // repository.findById: the stored state as a managed entity
      var existing := new Product.Of(rows[id]);
      var updated := UpdateEntityFromDto(existing, dto);
      // repository.save merges by the entity's id
      rows := rows[updated.id.value := updated.State()];
      r := OrElseThrow(ToDto(Some(updated.State())), IllegalState(UpdateMappingFailed));
    }

    /** deleteById: not-found (and nothing removed) for an absent id; otherwise that id is gone. */
    method DeleteById(id: int) returns (r: Result<(), ServiceError>)
      requires Valid()
      modifies this
      ensures Valid() && nextId == old(nextId)
      ensures id !in old(rows) ==> r == Failure(NotFound(id)) && rows == old(rows)
      ensures id in old(rows) ==> r == Success(()) && rows == old(rows) - {id} && id !in rows
    {
      if id !in rows {
        return Failure(NotFound(id));
      }
      rows := rows - {id};
      r := Success(());
    }
  }
}
