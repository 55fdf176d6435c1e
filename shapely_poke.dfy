/** The write-side reflective handle of shapely-core: the field-presence bitset `ISet`, the dispatch
    from a shape's `Def` to a `Poke` variant, and the narrowing `into_*` conversions. */
module ShapelyPoke {
  import opened Wrappers

  // ---------------------------------------------------------------------------------------------
  // The 64-bit presence mask, bit by bit
  // ---------------------------------------------------------------------------------------------

  /** Number of fields an `ISet` can track: the width of its `u64`. */
  const Capacity: nat := 64

  /** A `u64`, as its 64 bits: bit `i` is `w[i]`. */
  type Word = w: seq<bool> | |w| == 64 witness seq(64, _ => false)

  /** The word with no bit set. */
  function Zero(): (w: Word)
    ensures forall i :: 0 <= i < 64 ==> !w[i]
  {
    seq(64, _ => false)
  }

  /** `1 << index`, for an index below 64. */
  function Bit(index: nat): (w: Word)
    requires index < Capacity
  {
    seq(64, i requires 0 <= i < 64 => i == index)
  }

  /** `a | b`. */
  function Or(a: Word, b: Word): (w: Word)
  {
    seq(64, i requires 0 <= i < 64 => a[i] || b[i])
  }

  /** `a & b`. */
  function And(a: Word, b: Word): (w: Word)
  {
    seq(64, i requires 0 <= i < 64 => a[i] && b[i])
  }

  /** `!a`. */
  function Not(a: Word): (w: Word)
  {
    seq(64, i requires 0 <= i < 64 => !a[i])
  }

  /** `(1 << count) - 1` for a count below 64: the word whose low `count` bits are set. */
  function ShiftMinusOne(count: nat): (w: Word)
    requires count < Capacity
  {
    seq(64, i requires 0 <= i < 64 => i < count)
  }

  /** `word & (1 << index) != 0`: the test `has` performs. */
  predicate TestBit(word: Word, index: nat)
    requires index < Capacity
  {
    And(word, Bit(index)) != Zero()
  }

  /** The test `word & (1 << index) != 0` reads exactly bit `index`. */
  lemma TestBitReadsBit(word: Word, index: nat)
    requires index < Capacity
    ensures TestBit(word, index) <==> word[index]
  {
    var m := And(word, Bit(index));
    if word[index] {
      assert m[index] != Zero()[index];
    } else {
      assert forall i :: 0 <= i < Capacity ==> m[i] == Zero()[i];
    }
  }

  /** `word & mask == mask` holds exactly when every bit set in `mask` is set in `word`. */
  lemma CoversIffEach(word: Word, mask: Word)
    ensures And(word, mask) == mask <==> forall i :: 0 <= i < Capacity && mask[i] ==> word[i]
  {
    if forall i :: 0 <= i < Capacity && mask[i] ==> word[i] {
      assert forall i :: 0 <= i < Capacity ==> And(word, mask)[i] == mask[i];
    }
  }

  // ---------------------------------------------------------------------------------------------
  // all_set as written and as corrected
  // ---------------------------------------------------------------------------------------------

  /** The mask `all_set` builds as written, `(1 << count) - 1` on `u64`. For `count == 64` the shift
      overflows: a release build masks the shift amount to its low six bits, so `1 << 64` is `1` and
      the mask is `0` (a debug build panics instead). */
  function AllSetMaskAsWritten(count: nat): (w: Word)
    requires count <= Capacity
  {
    ShiftMinusOne(count % 64)
  }

  /** `all_set` as written: `word & mask == mask`. */
  predicate AllSetAsWritten(word: Word, count: nat)
    requires count <= Capacity
  {
    And(word, AllSetMaskAsWritten(count)) == AllSetMaskAsWritten(count)
  }

  /** For `count == 64` the code as written accepts a word with no bit set. */
  lemma AllSetAsWrittenAcceptsEmpty()
    ensures AllSetAsWritten(Zero(), 64)
    ensures !Zero()[0]
  {
    assert AllSetMaskAsWritten(64) == Zero();
    assert forall i :: 0 <= i < Capacity ==> And(Zero(), Zero())[i] == Zero()[i];
  }

  /** The mask the corrected `all_set` builds: the low `count` bits, where `count == 64` is handled on
      its own instead of shifting by 64. */
  function LowMask(count: nat): (w: Word)
    requires count <= Capacity
    ensures forall i :: 0 <= i < Capacity ==> (w[i] <==> i < count)
  {
    if count == Capacity then Not(Zero()) else ShiftMinusOne(count)
  }

  /** The corrected `all_set`: true exactly when each of the first `count` bits is set. */
  predicate AllLowSet(word: Word, count: nat)
    requires count <= Capacity
  {
    And(word, LowMask(count)) == LowMask(count)
  }

  /** Below 64 the code as written and the corrected code agree. */
  lemma AllSetAsWrittenBelowCapacity(word: Word, count: nat)
    requires count < Capacity
    ensures AllSetAsWritten(word, count) == AllLowSet(word, count)
  {
  }

  /** The corrected test reads every one of the first `count` bits, including for `count == 64`. */
  lemma AllLowSetIffEach(word: Word, count: nat)
    requires count <= Capacity
    ensures AllLowSet(word, count) <==> forall i :: 0 <= i < count ==> word[i]
  {
    CoversIffEach(word, LowMask(count));
  }

  // ---------------------------------------------------------------------------------------------
  // ISet
  // ---------------------------------------------------------------------------------------------

  /** Which fields of a struct under construction have been initialised, one bit per field. */
  class ISet {
    var bits: Word

    /** `ISet::default()`: no field is initialised. */
    constructor ()
      ensures bits == Zero()
      ensures forall i :: 0 <= i < Capacity ==> !Has(i)
    {
      bits := Zero();
      new;
      forall i | 0 <= i < Capacity ensures !Has(i) {
        TestBitReadsBit(Zero(), i);
      }
    }

    /** `has(index)`: `bits & (1 << index) != 0`. An index of 64 or more panics, which the
        precondition excludes. */
    predicate Has(index: nat)
      reads this
      requires index < Capacity
      ensures Has(index) <==> bits[index]
    {
      TestBitReadsBit(bits, index);
      TestBit(bits, index)
    }

    /** `set(index)`: `bits |= 1 << index`. Marks field `index` initialised and leaves every other
        field as it was. */
    method Set(index: nat)
      requires index < Capacity
      modifies this
      ensures bits == Or(old(bits), Bit(index))
      ensures Has(index)
      ensures forall j :: 0 <= j < Capacity && j != index ==> Has(j) == old(Has(j))
    {
      bits := Or(bits, Bit(index));
    }

    /** `unset(index)`: `bits &= !(1 << index)`. Marks field `index` uninitialised and leaves every
        other field as it was. */
    method Unset(index: nat)
      requires index < Capacity
      modifies this
      ensures bits == And(old(bits), Not(Bit(index)))
      ensures !Has(index)
      ensures forall j :: 0 <= j < Capacity && j != index ==> Has(j) == old(Has(j))
    {
      bits := And(bits, Not(Bit(index)));
    }

    /** `all_set(count)`, with the `count == 64` case corrected: true exactly when each of the first
        `count` fields is initialised. A count above 64 panics, which the precondition excludes. */
    function AllSet(count: nat): (r: bool)
      reads this
      requires count <= Capacity
      ensures r <==> forall i :: 0 <= i < count ==> Has(i)
    {
      AllLowSetIffEach(bits, count);
      assert forall i :: 0 <= i < count ==> Has(i) == bits[i];
      AllLowSet(bits, count)
    }
  }

  /** Setting a bit that is already set changes nothing. */
  lemma SetIdempotent(word: Word, index: nat)
    requires index < Capacity
    ensures Or(Or(word, Bit(index)), Bit(index)) == Or(word, Bit(index))
  {
    assert forall i :: 0 <= i < Capacity ==>
      Or(Or(word, Bit(index)), Bit(index))[i] == Or(word, Bit(index))[i];
  }

  /** Unsetting a bit that was just set, where it was clear before, restores the original word. */
  lemma UnsetUndoesSet(word: Word, index: nat)
    requires index < Capacity && !word[index]
    ensures And(Or(word, Bit(index)), Not(Bit(index))) == word
  {
    assert forall i :: 0 <= i < Capacity ==> And(Or(word, Bit(index)), Not(Bit(index)))[i] == word[i];
  }

  // ---------------------------------------------------------------------------------------------
  // Poke: variant dispatch and narrowing
  // ---------------------------------------------------------------------------------------------

  /** Structural descriptions carried by a shape's `Def`. Their contents belong to the shape system
      and are kept abstract: each is identified by a number. */
  datatype StructDef = StructDef(id: nat)
  datatype MapDef = MapDef(id: nat)
  datatype ListDef = ListDef(id: nat)
  datatype EnumDef = EnumDef(id: nat)

  /** The kind of a shape. */
  datatype Def =
    | Scalar
    | Struct(structDef: StructDef)
    | TupleStruct(structDef: StructDef)
    | Tuple(structDef: StructDef)
    | Map(mapDef: MapDef)
    | List(listDef: ListDef)
    | Enum(enumDef: EnumDef)

  /** A shape: its identity and its `Def`. */
  datatype Shape = Shape(id: nat, def: Def)

  /** What the shape's default-construction operation does to the storage at an address: it
      constructs the default value and returns its address, or it fails. */
  datatype DefaultOutcome = Constructed(data: nat) | ConstructionFailed

  /** The per-variant handles; `data` is the address of the storage they write to. */
  datatype PokeValue = PokeValue(data: nat, shape: Shape)
  datatype PokeStruct = PokeStruct(data: nat, shape: Shape, def: StructDef)
  datatype PokeList = PokeList(data: nat, shape: Shape, def: ListDef)
  datatype PokeMap = PokeMap(data: nat, shape: Shape, def: MapDef)
  datatype PokeEnum = PokeEnum(data: nat, shape: Shape, def: EnumDef)

  datatype Poke =
    | ScalarPoke(value: PokeValue)
    | ListPoke(list: PokeList)
    | MapPoke(map_: PokeMap)
    | StructPoke(struct_: PokeStruct)
    | EnumPoke(enum_: PokeEnum)

  /** The panics of this component. */
  datatype Panic =
    | FailedToInitialize(kind: string)
    | ExpectedVariant(variant: string)

  /** `from_opaque_uninit`: wraps storage at `data` of shape `shape` in the `Poke` variant its `Def`
      calls for. Maps and lists are first default-constructed in place, using `defaultInPlace`; a
      failure there panics. */
  function FromOpaqueUninit(data: nat, shape: Shape, defaultInPlace: DefaultOutcome): (r: Result<Poke, Panic>)
    ensures (shape.def.Struct? || shape.def.TupleStruct? || shape.def.Tuple?) ==>
              r.Ok? && r.value.StructPoke? && r.value.struct_.data == data &&
              r.value.struct_.shape == shape && r.value.struct_.def == shape.def.structDef
    ensures shape.def.Scalar? ==> r.Ok? && r.value.ScalarPoke? && r.value.value == PokeValue(data, shape)
    ensures shape.def.Enum? ==> (r.Ok? && r.value.EnumPoke? && r.value.enum_.data == data && r.value.enum_.shape == shape &&
              r.value.enum_.def == shape.def.enumDef)
    ensures shape.def.Map? ==>
              (r.Ok? <==> defaultInPlace.Constructed?) &&
              (r.Ok? ==> r.value.MapPoke? && r.value.map_.data == defaultInPlace.data &&
                         r.value.map_.shape == shape && r.value.map_.def == shape.def.mapDef) &&
              (r.Err? ==> r.error == FailedToInitialize("map"))
    ensures shape.def.List? ==>
              (r.Ok? <==> defaultInPlace.Constructed?) &&
              (r.Ok? ==> r.value.ListPoke? && r.value.list.data == defaultInPlace.data &&
                         r.value.list.shape == shape && r.value.list.def == shape.def.listDef) &&
              (r.Err? ==> r.error == FailedToInitialize("list"))
  {
    match shape.def
    case Struct(sd) => Ok(StructPoke(PokeStruct(data, shape, sd)))
    case TupleStruct(sd) => Ok(StructPoke(PokeStruct(data, shape, sd)))
    case Tuple(sd) => Ok(StructPoke(PokeStruct(data, shape, sd)))
    case Map(md) =>
      (match defaultInPlace
       case Constructed(initialised) => Ok(MapPoke(PokeMap(initialised, shape, md)))
       case ConstructionFailed => Err(FailedToInitialize("map")))
    case List(ld) =>
      (match defaultInPlace
       case Constructed(initialised) => Ok(ListPoke(PokeList(initialised, shape, ld)))
       case ConstructionFailed => Err(FailedToInitialize("list")))
    case Scalar => Ok(ScalarPoke(PokeValue(data, shape)))
    case Enum(ed) => Ok(EnumPoke(PokeEnum(data, shape, ed)))
  }

  /** `into_struct`: the struct handle, or a panic on any other variant. */
  function IntoStruct(p: Poke): (r: Result<PokeStruct, Panic>)
    ensures r.Ok? <==> p.StructPoke?
    ensures r.Ok? ==> p == StructPoke(r.value)
    ensures r.Err? ==> r.error == ExpectedVariant("Struct")
  {
    match p
    case StructPoke(s) => Ok(s)
    case _ => Err(ExpectedVariant("Struct"))
  }

  /** `into_list`: the list handle, or a panic on any other variant. */
  function IntoList(p: Poke): (r: Result<PokeList, Panic>)
    ensures r.Ok? <==> p.ListPoke?
    ensures r.Ok? ==> p == ListPoke(r.value)
    ensures r.Err? ==> r.error == ExpectedVariant("List")
  {
    match p
    case ListPoke(l) => Ok(l)
    case _ => Err(ExpectedVariant("List"))
  }

  /** `into_map`: the map handle, or a panic on any other variant. */
  function IntoMap(p: Poke): (r: Result<PokeMap, Panic>)
    ensures r.Ok? <==> p.MapPoke?
    ensures r.Ok? ==> p == MapPoke(r.value)
    ensures r.Err? ==> r.error == ExpectedVariant("Map")
  {
    match p
    case MapPoke(m) => Ok(m)
    case _ => Err(ExpectedVariant("Map"))
  }

  /** `into_scalar`: the scalar handle, or a panic on any other variant. */
  function IntoScalar(p: Poke): (r: Result<PokeValue, Panic>)
    ensures r.Ok? <==> p.ScalarPoke?
    ensures r.Ok? ==> p == ScalarPoke(r.value)
    ensures r.Err? ==> r.error == ExpectedVariant("Scalar")
  {
    match p
    case ScalarPoke(v) => Ok(v)
    case _ => Err(ExpectedVariant("Scalar"))
  }

  /** `into_enum`: the enum handle, or a panic on any other variant. */
  function IntoEnum(p: Poke): (r: Result<PokeEnum, Panic>)
    ensures r.Ok? <==> p.EnumPoke?
    ensures r.Ok? ==> p == EnumPoke(r.value)
    ensures r.Err? ==> r.error == ExpectedVariant("Enum")
  {
    match p
    case EnumPoke(e) => Ok(e)
    case _ => Err(ExpectedVariant("Enum"))
  }

  /** A handle made for a struct-like shape narrows to a struct and to nothing else. */
  lemma StructShapeNarrowsToStructOnly(data: nat, shape: Shape, defaultInPlace: DefaultOutcome)
    requires shape.def.Struct? || shape.def.TupleStruct? || shape.def.Tuple?
    ensures var p := FromOpaqueUninit(data, shape, defaultInPlace).value;
      IntoStruct(p).Ok? && IntoList(p).Err? && IntoMap(p).Err? && IntoScalar(p).Err? && IntoEnum(p).Err?
  {
  }

  /** A list shape whose default construction succeeds yields a handle that narrows to a list over the
      constructed storage; a map shape likewise narrows to a map. */
  lemma ContainerShapesNarrowToTheirKind(data: nat, shape: Shape, at: nat)
    ensures shape.def.List? ==>
      IntoList(FromOpaqueUninit(data, shape, Constructed(at)).value) == Ok(PokeList(at, shape, shape.def.listDef))
    ensures shape.def.Map? ==>
      IntoMap(FromOpaqueUninit(data, shape, Constructed(at)).value) == Ok(PokeMap(at, shape, shape.def.mapDef))
  {
  }
}
