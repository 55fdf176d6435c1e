/** The traversal with the type-depth rule its comments describe: the type depth grows only where the
    walk moves to a different address. The printer as written adds one at every field and item, even
    when the field or item shares its parent's address (facet-pretty/src/printer.rs:254 and 298).
    Here a field or item at its parent's address keeps the parent's type depth, and every other step
    is the one of `FacetPretty.PrettyPrinter.Render`. */
module FacetPrettyIntended {
  import opened Wrappers
  import opened FacetPeek
  import opened FacetPretty
  import opened FacetPrettyProofs

  /** `format_peek_internal` with the corrected rule; the depth limit, the cycle check and the record
      of a first visit are unchanged, and no walk forgets an address or its first-seen depth. */
  function IntendedRender(pp: PrettyPrinter, p: Peek, fd: nat, td: nat, visited: map<nat, nat>): (r: Rendered)
    ensures Extends(visited, r.visited)
    decreases p, 3, 0
  {
    if pp.maxDepth.Some? && fd > pp.maxDepth.value then
      Rendered(pp.Truncated(), visited)
    else if p.addr in visited && td > visited[p.addr] + 1 then
      Rendered(pp.CycleMarker(p, visited[p.addr]), visited)
    else
      IntendedDispatch(pp, p, fd, td, if p.addr in visited then visited else visited[p.addr := td])
  }

  function IntendedDispatch(pp: PrettyPrinter, p: Peek, fd: nat, td: nat, visited: map<nat, nat>): (r: Rendered)
    ensures Extends(visited, r.visited)
    decreases p, 2, 0
  {
    match p
    case Value(_, _, _, _) => Rendered(pp.ValuePieces(p), visited)
    case Struct(_, _, _) => IntendedStruct(pp, p, fd + 1, td, visited)
    case List(_, _, _) => IntendedList(pp, p, fd + 1, td, visited)
    case Map(_, _) => Rendered(pp.MapPieces(p, fd + 1), visited)
  }

  function IntendedStruct(pp: PrettyPrinter, s: Peek, fd: nat, td: nat, visited: map<nat, nat>): (r: Rendered)
    requires s.Struct? && fd >= 1
    ensures Extends(visited, r.visited)
    decreases s, 1, 0
  {
    var header := pp.StyleTypeName(s.typeName) + pp.StylePunctuation(" {");
    if |s.fields| == 0 then
      Rendered(header + pp.StylePunctuation(" }"), visited)
    else
      var body := IntendedFields(pp, s, 0, fd, td, visited);
      Rendered(header + [Newline] + body.pieces + [Lit(Spaces((fd - 1) * pp.indentSize))] + pp.StylePunctuation("}"),
               body.visited)
  }

  function IntendedFields(pp: PrettyPrinter, s: Peek, i: nat, fd: nat, td: nat, visited: map<nat, nat>): (r: Rendered)
    requires s.Struct? && i <= |s.fields|
    ensures Extends(visited, r.visited)
    decreases s, 0, |s.fields| - i
  {
    if i == |s.fields| then Rendered([], visited) else
      var line := IntendedField(pp, s.fields[i], s.addr, fd, td, visited);
      var rest := IntendedFields(pp, s, i + 1, fd, td, line.visited);
      Rendered(line.pieces + rest.pieces, rest.visited)
  }

  /** A field line of the struct at `parent`: its value is one type level deeper only when it sits
      at another address. */
  function IntendedField(pp: PrettyPrinter, field: Field, parent: nat, fd: nat, td: nat, visited: map<nat, nat>): (r: Rendered)
    ensures Extends(visited, r.visited)
    decreases field, 0, 0
  {
    var value := if field.sensitive then Rendered(pp.StyleRedacted("[REDACTED]"), visited)
                 else IntendedRender(pp, field.value, fd + 1, NextTypeDepth(field.value.addr, parent, td), visited);
    Rendered(pp.FieldHead(field, fd) + value.pieces + pp.StylePunctuation(",") + [Newline], value.visited)
  }

  function IntendedList(pp: PrettyPrinter, l: Peek, fd: nat, td: nat, visited: map<nat, nat>): (r: Rendered)
    requires l.List?
    ensures Extends(visited, r.visited)
    decreases l, 1, 0
  {
    var body := IntendedItems(pp, l, 0, fd, td, visited);
    Rendered(pp.StyleTypeName(l.typeName) + pp.StylePunctuation(" [") + [Newline] + body.pieces
               + [Lit(Spaces(fd * pp.indentSize))] + pp.StylePunctuation("]"),
             body.visited)
  }

  function IntendedItems(pp: PrettyPrinter, l: Peek, i: nat, fd: nat, td: nat, visited: map<nat, nat>): (r: Rendered)
    requires l.List? && i <= |l.items|
    ensures Extends(visited, r.visited)
    decreases l, 0, |l.items| - i
  {
    if i == |l.items| then Rendered([], visited) else
      var line := IntendedItem(pp, l.items[i], i < |l.items| - 1, l.addr, fd, td, visited);
      var rest := IntendedItems(pp, l, i + 1, fd, td, line.visited);
      Rendered(line.pieces + rest.pieces, rest.visited)
  }

  /** An item line of the list at `parent`: the item is one type level deeper only when it sits at
      another address. */
  function IntendedItem(pp: PrettyPrinter, item: Peek, comma: bool, parent: nat, fd: nat, td: nat, visited: map<nat, nat>): (r: Rendered)
    ensures Extends(visited, r.visited)
    decreases item, 4, 0
  {
    var value := IntendedRender(pp, item, fd + 1, NextTypeDepth(item.addr, parent, td), visited);
    Rendered([Lit(Spaces((fd + 1) * pp.indentSize))] + value.pieces
               + (if comma then pp.StylePunctuation(",") else []) + [Newline],
             value.visited)
  }

  /** A struct whose only field is not sensitive, walked with the corrected rule, around the output
      `x` of its field's value. */
  lemma IntendedWrapper(pp: PrettyPrinter, s: Peek, fd: nat, td: nat, v: map<nat, nat>, x: Rendered)
    requires s.Struct? && |s.fields| == 1 && !s.fields[0].sensitive
    requires !(pp.maxDepth.Some? && fd > pp.maxDepth.value) && !(s.addr in v && td > v[s.addr] + 1)
    requires var v' := if s.addr in v then v else v[s.addr := td];
      IntendedRender(pp, s.fields[0].value, fd + 2, NextTypeDepth(s.fields[0].value.addr, s.addr, td), v') == x
    ensures IntendedRender(pp, s, fd, td, v)
      == Rendered(pp.StyleTypeName(s.typeName) + pp.StylePunctuation(" {") + [Newline]
                    + (pp.FieldHead(s.fields[0], fd + 1) + x.pieces + pp.StylePunctuation(",") + [Newline])
                    + [Lit(Spaces(fd * pp.indentSize))] + pp.StylePunctuation("}"),
                  x.visited)
  {
    var v' := if s.addr in v then v else v[s.addr := td];
    var line := IntendedField(pp, s.fields[0], s.addr, fd + 1, td, v');
    assert line == Rendered(pp.FieldHead(s.fields[0], fd + 1) + x.pieces + pp.StylePunctuation(",") + [Newline],
                            x.visited);
    assert IntendedFields(pp, s, 1, fd + 1, td, line.visited) == Rendered([], line.visited);
    assert line.pieces + [] == line.pieces;
    assert IntendedFields(pp, s, 0, fd + 1, td, v') == line;
    assert (fd + 1 - 1) * pp.indentSize == fd * pp.indentSize;
    assert IntendedRender(pp, s, fd, td, v) == IntendedStruct(pp, s, fd + 1, td, v');
  }

  /** With the corrected rule, a chain of wrappers that all sit at one address (an outer struct whose
      only field, at offset 0, is an inner struct whose only field is a scalar) is no cycle: the scalar
      is written as its value, and the address is recorded once, at type depth 0. */
  lemma SameAddressChainIsNoCycle(pp: PrettyPrinter, outer: Peek, inner: Peek, leaf: Peek)
    requires pp.maxDepth == None
    requires outer.Struct? && |outer.fields| == 1 && !outer.fields[0].sensitive && outer.fields[0].value == inner
    requires inner.Struct? && |inner.fields| == 1 && !inner.fields[0].sensitive && inner.fields[0].value == leaf
    requires leaf.Value? && inner.addr == outer.addr && leaf.addr == outer.addr
    ensures
      var w := pp.indentSize;
      var innerOut := pp.StyleTypeName(inner.typeName) + pp.StylePunctuation(" {") + [Newline]
        + (pp.FieldHead(inner.fields[0], 3) + pp.ValuePieces(leaf) + pp.StylePunctuation(",") + [Newline])
        + [Lit(Spaces(2 * w))] + pp.StylePunctuation("}");
      IntendedRender(pp, outer, 0, 0, map[])
        == Rendered(pp.StyleTypeName(outer.typeName) + pp.StylePunctuation(" {") + [Newline]
                      + (pp.FieldHead(outer.fields[0], 1) + innerOut + pp.StylePunctuation(",") + [Newline])
                      + [Lit(Spaces(0))] + pp.StylePunctuation("}"),
                    map[outer.addr := 0])
  {
    var a := outer.addr;
    var m := map[a := 0];
    assert map[][a := 0] == m;
    var leafOut := IntendedRender(pp, leaf, 4, 0, m);
    assert leafOut == IntendedDispatch(pp, leaf, 4, 0, m);
    assert leafOut == Rendered(pp.ValuePieces(leaf), m);
    IntendedWrapper(pp, inner, 2, 0, m, leafOut);
    IntendedWrapper(pp, outer, 0, 0, map[], IntendedRender(pp, inner, 2, 0, m));
  }

  /** The corrected rule still cuts off a real cycle: when a struct at `a` holds a struct at another
      address `b` that leads back to `a`, the way back is two type levels below the first visit of
      `a` and is written as a cycle marker first seen at type depth 0. */
  lemma BackEdgeIsCutOff(pp: PrettyPrinter, outer: Peek, middle: Peek, back: Peek)
    requires pp.maxDepth == None
    requires outer.Struct? && |outer.fields| == 1 && !outer.fields[0].sensitive && outer.fields[0].value == middle
    requires middle.Struct? && |middle.fields| == 1 && !middle.fields[0].sensitive && middle.fields[0].value == back
    requires middle.addr != outer.addr && back.addr == outer.addr
    ensures
      var w := pp.indentSize;
      var middleOut := pp.StyleTypeName(middle.typeName) + pp.StylePunctuation(" {") + [Newline]
        + (pp.FieldHead(middle.fields[0], 3) + pp.CycleMarker(back, 0) + pp.StylePunctuation(",") + [Newline])
        + [Lit(Spaces(2 * w))] + pp.StylePunctuation("}");
      IntendedRender(pp, outer, 0, 0, map[])
        == Rendered(pp.StyleTypeName(outer.typeName) + pp.StylePunctuation(" {") + [Newline]
                      + (pp.FieldHead(outer.fields[0], 1) + middleOut + pp.StylePunctuation(",") + [Newline])
                      + [Lit(Spaces(0))] + pp.StylePunctuation("}"),
                    map[outer.addr := 0, middle.addr := 1])
  {
    var a, b := outer.addr, middle.addr;
    var m := map[a := 0];
    assert map[][a := 0] == m;
    var m2 := m[b := 1];
    var backOut := IntendedRender(pp, back, 4, 2, m2);
    assert m2[a] == 0;
    assert backOut == Rendered(pp.CycleMarker(back, 0), m2);
    IntendedWrapper(pp, middle, 2, 1, m, backOut);
    IntendedWrapper(pp, outer, 0, 0, map[], IntendedRender(pp, middle, 2, 1, m));
  }

  // ---------------------------------------------------------------------------------------------
  // Where the two rules agree
  // ---------------------------------------------------------------------------------------------

  /** Every field and item that a walk of `p` enters sits at an address other than its parent's. */
  predicate Moves(p: Peek)
    decreases p, 1
  {
    match p
    case Struct(_, _, _) => MovesFields(p, 0)
    case List(_, _, _) => MovesItems(p, 0)
    case _ => true
  }

  predicate MovesFields(s: Peek, i: nat)
    requires s.Struct? && i <= |s.fields|
    decreases s, 0, |s.fields| - i
  {
    i == |s.fields| || (MovesField(s.fields[i], s.addr) && MovesFields(s, i + 1))
  }

  /** A redacted value is never walked, so only a walked value must move. */
  predicate MovesField(field: Field, parent: nat)
    decreases field, 0
  {
    field.sensitive || (field.value.addr != parent && Moves(field.value))
  }

  predicate MovesItems(l: Peek, i: nat)
    requires l.List? && i <= |l.items|
    decreases l, 0, |l.items| - i
  {
    i == |l.items| || (l.items[i].addr != l.addr && Moves(l.items[i]) && MovesItems(l, i + 1))
  }

  /** The correction changes nothing where every step of the walk moves to another address: there the
      printer as written and the corrected walk write the same pieces and record the same map. */
  lemma {:induction false} RenderAgrees(pp: PrettyPrinter, p: Peek, fd: nat, td: nat, v: map<nat, nat>)
    requires Moves(p)
    ensures IntendedRender(pp, p, fd, td, v) == pp.Render(p, fd, td, v)
    decreases p, 3, 0
  {
    if !(pp.maxDepth.Some? && fd > pp.maxDepth.value) && !(p.addr in v && td > v[p.addr] + 1) {
      DispatchAgrees(pp, p, fd, td, if p.addr in v then v else v[p.addr := td]);
    }
  }

  lemma {:induction false} DispatchAgrees(pp: PrettyPrinter, p: Peek, fd: nat, td: nat, v: map<nat, nat>)
    requires Moves(p)
    ensures IntendedDispatch(pp, p, fd, td, v) == pp.Dispatch(p, fd, td, v)
    decreases p, 2, 0
  {
    match p
    case Value(_, _, _, _) =>
    case Struct(_, _, _) => StructAgrees(pp, p, fd + 1, td, v);
    case List(_, _, _) => ListAgrees(pp, p, fd + 1, td, v);
    case Map(_, _) =>
  }

  lemma {:induction false} StructAgrees(pp: PrettyPrinter, s: Peek, fd: nat, td: nat, v: map<nat, nat>)
    requires s.Struct? && fd >= 1 && MovesFields(s, 0)
    ensures IntendedStruct(pp, s, fd, td, v) == pp.RenderStruct(s, fd, td, v)
    decreases s, 1, 0
  {
    if |s.fields| > 0 {
      FieldsAgree(pp, s, 0, fd, td, v);
    }
  }

  lemma {:induction false} FieldsAgree(pp: PrettyPrinter, s: Peek, i: nat, fd: nat, td: nat, v: map<nat, nat>)
    requires s.Struct? && i <= |s.fields| && MovesFields(s, i)
    ensures IntendedFields(pp, s, i, fd, td, v) == pp.RenderFields(s, i, fd, td, v)
    decreases s, 0, |s.fields| - i
  {
    if i < |s.fields| {
      FieldAgrees(pp, s.fields[i], s.addr, fd, td, v);
      FieldsAgree(pp, s, i + 1, fd, td, pp.RenderField(s.fields[i], fd, td, v).visited);
    }
  }

  lemma {:induction false} FieldAgrees(pp: PrettyPrinter, field: Field, parent: nat, fd: nat, td: nat, v: map<nat, nat>)
    requires MovesField(field, parent)
    ensures IntendedField(pp, field, parent, fd, td, v) == pp.RenderField(field, fd, td, v)
    decreases field, 0, 0
  {
    if !field.sensitive {
      RenderAgrees(pp, field.value, fd + 1, td + 1, v);
    }
  }

  lemma {:induction false} ListAgrees(pp: PrettyPrinter, l: Peek, fd: nat, td: nat, v: map<nat, nat>)
    requires l.List? && MovesItems(l, 0)
    ensures IntendedList(pp, l, fd, td, v) == pp.RenderList(l, fd, td, v)
    decreases l, 1, 0
  {
    ItemsAgree(pp, l, 0, fd, td, v);
  }

  lemma {:induction false} ItemsAgree(pp: PrettyPrinter, l: Peek, i: nat, fd: nat, td: nat, v: map<nat, nat>)
    requires l.List? && i <= |l.items| && MovesItems(l, i)
    ensures IntendedItems(pp, l, i, fd, td, v) == pp.RenderItems(l, i, fd, td, v)
    decreases l, 0, |l.items| - i
  {
    if i < |l.items| {
      ItemAgrees(pp, l.items[i], i < |l.items| - 1, l.addr, fd, td, v);
      ItemsAgree(pp, l, i + 1, fd, td, pp.RenderItem(l.items[i], i < |l.items| - 1, fd, td, v).visited);
    }
  }

  lemma {:induction false} ItemAgrees(pp: PrettyPrinter, item: Peek, comma: bool, parent: nat, fd: nat, td: nat, v: map<nat, nat>)
    requires item.addr != parent && Moves(item)
    ensures IntendedItem(pp, item, comma, parent, fd, td, v) == pp.RenderItem(item, comma, fd, td, v)
    decreases item, 4, 0
  {
    RenderAgrees(pp, item, fd + 1, td + 1, v);
  }
}
