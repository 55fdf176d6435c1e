/** The read-side reflective view the pretty printer walks: a `Peek` over initialised memory, as the
    printer sees it. Each node carries the address of its data (the pointer the printer uses for cycle
    detection) and the name of its type; scalars carry what their `Display` and `Debug` operations
    would print, if the shape has them. */
module FacetPeek {
  import opened Wrappers

  datatype Peek =
    | Value(addr: nat, typeName: string, display: Option<string>, debug: Option<string>)
    | Struct(addr: nat, typeName: string, fields: seq<Field>)
    | List(addr: nat, typeName: string, items: seq<Peek>)
    | Map(addr: nat, typeName: string)

  /** One entry of `fields_with_metadata`: the field's name, whether its flags contain `SENSITIVE`,
      and a view of its value. */
  datatype Field = Field(name: string, sensitive: bool, value: Peek)
}
