/** The transport records for an Item (Shared/Dtos/). Their validation
    attributes are checked by the framework, not by this code, so the
    records carry any values. */
module Dtos {
  import opened Runtime

  /** ItemDto: every property of an Item. */
  datatype ItemDto = ItemDto(
    id: Guid, name: string, description: string, price: real, createdDate: DateTimeOffset)

  /** ItemForCreateDto: the properties a client chooses for a new Item. */
  datatype ItemForCreateDto = ItemForCreateDto(name: string, description: string, price: real)

  /** ItemForUpdateDto: the properties an update may change. */
  datatype ItemForUpdateDto = ItemForUpdateDto(name: string, description: string, price: real)
}
