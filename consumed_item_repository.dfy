/** `ConsumedItemRepository`: the consumer's only read of its collection, mapped to a
    domain entity. It writes nothing. */
module ConsumedItemRepositories {
  import opened Wrappers
  import opened Items
  import opened ObjectIds
  import opened ConsumedItems
  import Text

  datatype ConsumedItemEntity = ConsumedItemEntity(
    id: string,
    name: string,
    description: Field<string>,
    price: Field<Num>,
    quantity: Field<Num>,
    originalItemId: string,
    lastSyncedAt: Date,
    createdAt: nat,
    updatedAt: nat)

  function ConsumedFields(e: ConsumedItemEntity): ItemFields {
    ItemFields(e.name, e.description, e.price, e.quantity)
  }

  /** `toDomainEntity`: every stored field copied, the id as its string form. */
  function ToDomainEntity(r: ReplicaRow): (e: ConsumedItemEntity)
    ensures e.id == IdString(r.id) && ParseHex(e.id) == r.id
    ensures ConsumedFields(e) == r.fields
    ensures e.originalItemId == r.originalItemId && e.lastSyncedAt == r.lastSyncedAt
    ensures e.createdAt == r.createdAt && e.updatedAt == r.updatedAt
  {
    ParseHexOfHex(r.id, IdLength);
    ConsumedItemEntity(IdString(r.id), r.fields.name, r.fields.description, r.fields.price, r.fields.quantity,
                       r.originalItemId, r.lastSyncedAt, r.createdAt, r.updatedAt)
  }

  /** `findByName`: the newest row named as the trimmed `name`, or null. */
  function FindByName(s: ReplicaState, name: string): Option<ConsumedItemEntity> {
    match FindOneByName(s, name)
    case None => None
    case Some(r) => Some(ToDomainEntity(r))
  }

  /** `findByName` finds nothing only when no row has the trimmed name; otherwise it maps the
      newest such row, whose entity carries the trimmed query as its name. */
  lemma FindByNameSpec(s: ReplicaState, name: string)
    requires WellFormed(s)
    ensures FindByName(s, name).None? <==> forall r :: r in s.rows ==> r.fields.name != Text.Trim(name)
    ensures FindByName(s, name).Some? ==>
      && FindByName(s, name).value.name == Text.Trim(name)
      && (exists r :: r in s.rows && FindByName(s, name).value == ToDomainEntity(r))
      && forall q :: q in s.rows && q.fields.name == Text.Trim(name) ==>
           q.createdAt <= FindByName(s, name).value.createdAt
  {
    FindOneByNameNewest(s, name);
    if FindOneByName(s, name).Some? {
      var r := FindOneByName(s, name).value;
      assert FindByName(s, name).value == ToDomainEntity(r);
    }
  }
}
