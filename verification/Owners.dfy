/** What a chunk vector belongs to. */
module Owners {

  datatype OwnerKind = Entity | Relation | Attachment

  datatype Owner = Owner(kind: OwnerKind, id: int)
}
