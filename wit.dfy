/** The shapes the generator receives from the interface front-end
    (`wit_parser`). They are inputs only: the emitter matches on them and
    never builds them. */
module Wit {

  type ResourceId = nat
  type TypeId = nat

  /** A value type of the interface language. */
  datatype Type =
    | U8 | U16 | U32 | U64
    | S8 | S16 | S32 | S64
    | F32 | F64
    | Char | CChar | Usize
    | Handle(resource: ResourceId)
    | Id(id: TypeId)

  datatype FunctionKind =
    | Freestanding
    | Static(resource: ResourceId, name: string)
    | Method(resource: ResourceId, name: string)

  /** One declared function: the parts of it the emitter reads. */
  datatype Function = Function(
    name: string,
    kind: FunctionKind,
    isAsync: bool,
    params: seq<(string, Type)>,
    results: seq<(string, Type)>)

  datatype Interface = Interface(name: string, functions: seq<Function>)
}
