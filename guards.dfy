/** Type guards over decoded blocks and actions, and the not-nil test. */
module Guards {
  import opened Js
  import opened W3g

  /** `typeof val === 'number' || val === false || !!val`. */
  predicate IsNotNil(v: JsValue): (r: bool)
    ensures r <==> !(v.Undefined? || v.Null? || v == Str("") || v == BigInt(0))
  {
    v.Num? || v.NaN? || v == Bool(false) || Truthy(v)
  }

  predicate IsTimeslotBlock(b: GameDataBlock) {
    b.id == 31 || b.id == 30
  }

  predicate IsLeaveGameBlock(b: GameDataBlock) {
    b.id == 0x17
  }

  /** `isTypedAction(id)`: a guard that accepts the actions with opcode `id`. */
  function IsTypedAction(id: int): Action -> bool {
    (a: Action) => a.id == id
  }
}
