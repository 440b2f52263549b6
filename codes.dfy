/**
  The status codes the bundle defines as global constants when it boots
  (CODE_BAD_REQUEST, CODE_OK, ...), as a closed enumeration.
*/
module Codes {
  import Wrappers

  datatype Code = BadRequest | Ok | Created | Error | Default | Conflict {
    /** The integer the constant is defined to. */
    function Value(): (v: int)
      ensures v in {0, 200, 201, 400, 409, 500}
    {
      match this
      case BadRequest => 400
      case Ok => 200
      case Created => 201
      case Error => 500
      case Default => 0
      case Conflict => 409
    }
  }

  /** Distinct constants have distinct values, so a code can be recovered from its integer. */
  function FromValue(v: int): (c: Wrappers.Option<Code>)
    ensures c.Some? ==> c.value.Value() == v
    ensures c.None? ==> forall k: Code :: k.Value() != v
  {
    if v == 400 then Wrappers.Some(BadRequest)
    else if v == 200 then Wrappers.Some(Ok)
    else if v == 201 then Wrappers.Some(Created)
    else if v == 500 then Wrappers.Some(Error)
    else if v == 0 then Wrappers.Some(Default)
    else if v == 409 then Wrappers.Some(Conflict)
    else Wrappers.None
  }
}
