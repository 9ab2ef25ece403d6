/** The conversions between Item and its transport records
    (Shared/Extensions.cs). Item-to-record conversions copy properties;
    record-to-Item conversions truncate the price toward zero and then go
    through the validating constructor. */
module Extensions {
  import opened Runtime
  import opened Dtos
  import opened Entities

  /** item.ToItemDto() */
  function ToItemDto(item: Item): ItemDto
    reads item
  {
    ItemDto(item.id, item.name, item.description, item.price, item.createdDate)
  }

  /** item.ToItemForUpdateDto() */
  function ToItemForUpdateDto(item: Item): ItemForUpdateDto
    reads item
  {
    ItemForUpdateDto(item.name, item.description, item.price)
  }

  /** item.ToItemForCreateDto() */
  function ToItemForCreateDto(item: Item): ItemForCreateDto
    reads item
  {
    ItemForCreateDto(item.name, item.description, item.price)
  }

  /** The truncated price passes the constructor's price check exactly when
      the price lies strictly between -1 and 1001. */
  lemma TruncatedPriceInRange(price: real)
    ensures MinPrice <= Truncate(price) <= MaxPrice <==> -1.0 < price < 1001.0
  {
    var t := Truncate(price);
    var n := t.Floor;
    assert t == n as real;
    if 0.0 <= price {
      assert 0 <= n;
      if price < 1001.0 {
        assert n < 1001;
      }
    } else {
      assert n <= 0;
      if -1.0 < price {
        assert -1 < n;
      }
    }
  }

  /** The values dto.ToItem() gives an Item: the DTO's properties with the
      price truncated toward zero, or the constructor's exception; the
      checks still run in the order name, description, price. */
  function ToItemFields(dto: ItemDto): (r: Outcome<ItemFields>)
    ensures r.Ok? <==> && |dto.name| <= MaxNameLength && |dto.description| <= MaxDescriptionLength
                       && -1.0 < dto.price < 1001.0
    ensures r.Ok? ==> r.value == ItemFields(dto.id, dto.name, dto.description, Truncate(dto.price), dto.createdDate)
    ensures |dto.name| > MaxNameLength ==> r == Throws(ArgumentException(NameProperty))
    ensures && |dto.name| <= MaxNameLength && |dto.description| > MaxDescriptionLength
            ==> r == Throws(ArgumentException(DescriptionProperty))
    ensures && |dto.name| <= MaxNameLength && |dto.description| <= MaxDescriptionLength
            && !(-1.0 < dto.price < 1001.0)
            ==> r == Throws(ArgumentOutOfRangeException(PriceParam))
  {
    TruncatedPriceInRange(dto.price);
    MakeItem(dto.id, dto.name, dto.description, Truncate(dto.price), dto.createdDate)
  }

  /** The values dto.ToItem(id, createdDate) gives an Item: the supplied id
      and date, the DTO's strings and its price truncated toward zero. */
  function ToItemFieldsFromCreate(dto: ItemForCreateDto, id: Guid, createdDate: DateTimeOffset)
    : (r: Outcome<ItemFields>)
    ensures r.Ok? <==> && |dto.name| <= MaxNameLength && |dto.description| <= MaxDescriptionLength
                       && -1.0 < dto.price < 1001.0
    ensures r.Ok? ==> r.value == ItemFields(id, dto.name, dto.description, Truncate(dto.price), createdDate)
    ensures |dto.name| > MaxNameLength ==> r == Throws(ArgumentException(NameProperty))
    ensures && |dto.name| <= MaxNameLength && |dto.description| > MaxDescriptionLength
            ==> r == Throws(ArgumentException(DescriptionProperty))
    ensures && |dto.name| <= MaxNameLength && |dto.description| <= MaxDescriptionLength
            && !(-1.0 < dto.price < 1001.0)
            ==> r == Throws(ArgumentOutOfRangeException(PriceParam))
  {
    TruncatedPriceInRange(dto.price);
    MakeItem(id, dto.name, dto.description, Truncate(dto.price), createdDate)
  }

  /** dto.ToItem(): a new Item, or the exception the constructor throws. */
  method ToItem(dto: ItemDto) returns (r: Outcome<Item>)
    ensures r.Throws? ==> ToItemFields(dto) == Throws(r.exception)
    ensures r.Ok? ==> fresh(r.value) && ToItemFields(dto) == Ok(r.value.Fields())
  {
    r := Item.New(dto.id, dto.name, dto.description, Truncate(dto.price), dto.createdDate);
  }

  /** dto.ToItem(id, createdDate) for an ItemForCreateDto. */
  method ToItemFromCreate(dto: ItemForCreateDto, id: Guid, createdDate: DateTimeOffset)
    returns (r: Outcome<Item>)
    ensures r.Throws? ==> ToItemFieldsFromCreate(dto, id, createdDate) == Throws(r.exception)
    ensures r.Ok? ==> fresh(r.value) && ToItemFieldsFromCreate(dto, id, createdDate) == Ok(r.value.Fields())
  {
    r := Item.New(id, dto.name, dto.description, Truncate(dto.price), createdDate);
  }

  /** Round trip through ItemDto: an in-bounds item comes back with every
      property equal except the price, which is truncated; with a whole
      price it comes back unchanged, and never throws. */
  lemma ItemDtoRoundTrip(item: Item)
    requires item.Fields().InBounds()
    ensures ToItemFields(ToItemDto(item)) == Ok(item.Fields().(price := Truncate(item.price)))
    ensures IsIntegral(item.price) ==> ToItemFields(ToItemDto(item)) == Ok(item.Fields())
  {
    TruncatedPriceInRange(item.price);
    if IsIntegral(item.price) {
      TruncateIntegral(item.price);
    }
  }

  /** Round trip through ItemForCreateDto with the item's own id and date:
      an in-bounds item with a whole price comes back unchanged. */
  lemma ItemForCreateDtoRoundTrip(item: Item)
    requires item.Fields().InBounds()
    ensures ToItemFieldsFromCreate(ToItemForCreateDto(item), item.id, item.createdDate)
            == Ok(item.Fields().(price := Truncate(item.price)))
    ensures IsIntegral(item.price)
            ==> ToItemFieldsFromCreate(ToItemForCreateDto(item), item.id, item.createdDate) == Ok(item.Fields())
  {
    TruncatedPriceInRange(item.price);
    if IsIntegral(item.price) {
      TruncateIntegral(item.price);
    }
  }

  /** The update and create records carry exactly the three settable
      properties: two items give equal records iff they agree on name,
      description and price, whatever their ids and creation dates. */
  lemma MutableFieldRecords(a: Item, b: Item)
    ensures ToItemForUpdateDto(a) == ToItemForUpdateDto(b)
            <==> a.name == b.name && a.description == b.description && a.price == b.price
    ensures ToItemForCreateDto(a) == ToItemForCreateDto(b)
            <==> a.name == b.name && a.description == b.description && a.price == b.price
  {
  }
}
