/** Roles, and which of them meets a requirement. */
module Authz {
  datatype Role = Viewer | Editor | Admin | Owner | Service

  function Rank(r: Role): nat {
    match r case Viewer => 1 case Editor => 2 case Admin => 3 case Owner => 4 case Service => 0
  }

  /** Service satisfies only Service, and no human role does. */
  predicate Satisfies(r: Role, required: Role) {
    if required.Service? || r.Service? then r == required else Rank(r) >= Rank(required)
  }
}
