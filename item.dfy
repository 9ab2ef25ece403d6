/** The Item entity (Shared/Entities/Item.cs): Id and CreatedDate are fixed at
    construction; Name, Description and Price have public setters that do not
    re-check the bounds the constructor enforces. */
module Entities {
  import opened Runtime

  /** MinNameLength is only used by validation attributes; the constructor
      does not check it. */
  const MinNameLength: nat := 2
  const MaxNameLength: nat := 64
  const MaxDescriptionLength: nat := 512
  const MinPrice: real := 0.0
  const MaxPrice: real := 1000.0

  /** The five property values of an Item at one moment. */
  datatype ItemFields = ItemFields(
    id: Guid, name: string, description: string, price: real, createdDate: DateTimeOffset)
  {
    /** The bounds the validating constructor checks. */
    predicate InBounds()
    {
      |name| <= MaxNameLength && |description| <= MaxDescriptionLength && MinPrice <= price <= MaxPrice
    }
  }

  /** The outcome of the validating constructor Item(id, name, description,
      price, createdDate): the name is checked first, then the description,
      then the price; the first violation decides the exception. */
  function MakeItem(id: Guid, name: string, description: string, price: real, createdDate: DateTimeOffset)
    : (r: Outcome<ItemFields>)
    ensures r.Ok? <==> ItemFields(id, name, description, price, createdDate).InBounds()
    ensures r.Ok? ==> r.value == ItemFields(id, name, description, price, createdDate)
    ensures |name| > MaxNameLength ==> r == Throws(ArgumentException(NameProperty))
    ensures && |name| <= MaxNameLength && |description| > MaxDescriptionLength
            ==> r == Throws(ArgumentException(DescriptionProperty))
    ensures && |name| <= MaxNameLength && |description| <= MaxDescriptionLength
            && (price < MinPrice || price > MaxPrice)
            ==> r == Throws(ArgumentOutOfRangeException(PriceParam))
  {
    if |name| > MaxNameLength then Throws(ArgumentException(NameProperty))
    else if |description| > MaxDescriptionLength then Throws(ArgumentException(DescriptionProperty))
    else if price < MinPrice then Throws(ArgumentOutOfRangeException(PriceParam))
    else if price > MaxPrice then Throws(ArgumentOutOfRangeException(PriceParam))
    else Ok(ItemFields(id, name, description, price, createdDate))
  }

  /** The constructor's defaults (empty strings, price 0) pass its checks,
      so Item(id, createdDate) never throws. */
  lemma DefaultsInBounds(id: Guid, createdDate: DateTimeOffset)
    ensures MakeItem(id, "", "", 0.0, createdDate) == Ok(ItemFields(id, "", "", 0.0, createdDate))
  {
  }

  class Item {
    const id: Guid
    var name: string
    var description: string
    var price: real
    const createdDate: DateTimeOffset

    /** The item's current property values. */
    function Fields(): (f: ItemFields)
      reads this
      ensures f.id == id && f.createdDate == createdDate
    {
      ItemFields(id, name, description, price, createdDate)
    }

    /** The assignments that end the validating constructor; reached only
        once its checks have passed. */
    constructor (id: Guid, name: string, description: string, price: real, createdDate: DateTimeOffset)
      requires MakeItem(id, name, description, price, createdDate).Ok?
      ensures Fields() == ItemFields(id, name, description, price, createdDate)
      ensures Fields().InBounds()
    {
      this.id := id;
      this.name := name;
      this.description := description;
      this.price := price;
      this.createdDate := createdDate;
    }

    /** Item(id, createdDate): delegates to the validating constructor with
        an empty name and description and price 0, which cannot throw. */
    constructor WithDefaults(id: Guid, createdDate: DateTimeOffset)
      ensures Fields() == ItemFields(id, "", "", 0.0, createdDate)
      ensures Fields().InBounds()
    {
      DefaultsInBounds(id, createdDate);
      this.id := id;
      this.name := "";
      this.description := "";
      this.price := 0.0;
      this.createdDate := createdDate;
    }

    /** new Item(id, name, description, price, createdDate): a new item
        holding exactly the arguments, or the exception MakeItem names. */
    static method New(id: Guid, name: string, description: string, price: real, createdDate: DateTimeOffset)
      returns (r: Outcome<Item>)
      ensures r.Throws? ==> MakeItem(id, name, description, price, createdDate) == Throws(r.exception)
      ensures r.Ok? ==> fresh(r.value)
      ensures r.Ok? ==> MakeItem(id, name, description, price, createdDate) == Ok(r.value.Fields())
    {
      var made := MakeItem(id, name, description, price, createdDate);
      if made.Throws? {
        return Throws(made.exception);
      }
      var item := new Item(id, name, description, price, createdDate);
      return Ok(item);
    }

    /** Clone: re-runs the validating constructor on the current values, so
        it copies an in-bounds item and throws on one whose setters pushed a
        property out of bounds. */
    method Clone() returns (r: Outcome<Item>)
      ensures r.Ok? <==> Fields().InBounds()
      ensures r.Ok? ==> fresh(r.value) && r.value.Fields() == Fields()
      ensures r.Throws? ==> MakeItem(id, name, description, price, createdDate) == Throws(r.exception)
    {
      r := New(id, name, description, price, createdDate);
    }
  }

  /** A name set past 64 characters through the unchecked setter is kept,
      and the next Clone throws the constructor's ArgumentException. */
  method OversizedNameBreaksClone(id: Guid, createdDate: DateTimeOffset, name: string)
    returns (r: Outcome<Item>)
    requires |name| > MaxNameLength
    ensures r == Throws(ArgumentException(NameProperty))
  {
    var item := new Item.WithDefaults(id, createdDate);
    item.name := name;
    r := item.Clone();
  }
}
