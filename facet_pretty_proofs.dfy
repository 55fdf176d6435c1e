/** Properties of the pretty printer's traversal, stated over the functions that specify it: how the
    visited map evolves, what switching colours off does, what a sensitive field hides, how many
    separators a list or a struct gets, and how the depth limit and the cycle check cut the walk. */
module FacetPrettyProofs {
  import opened Wrappers
  import opened FacetPeek
  import opened FacetPretty

  // ---------------------------------------------------------------------------------------------
  // The visited map
  // ---------------------------------------------------------------------------------------------

  /** `after` keeps every address of `before`, with the type depth at which it was first seen. */
  predicate Extends(before: map<nat, nat>, after: map<nat, nat>)
  {
    forall a :: a in before ==> a in after && after[a] == before[a]
  }

  /** The addresses a walk of `p` can reach: its own and those of its items and of its fields that
      are not sensitive. Map entries and redacted values are never walked. */
  function Reachable(p: Peek): set<nat>
    decreases p, 1
  {
    match p
    case Struct(a, _, _) => {a} + ReachableFields(p, 0)
    case List(a, _, _) => {a} + ReachableItems(p, 0)
    case _ => {p.addr}
  }

  function ReachableFields(s: Peek, i: nat): set<nat>
    requires s.Struct? && i <= |s.fields|
    decreases s, 0, |s.fields| - i
  {
    if i == |s.fields| then {} else ReachableField(s.fields[i]) + ReachableFields(s, i + 1)
  }

  function ReachableField(field: Field): set<nat>
    decreases field, 0
  {
    if field.sensitive then {} else Reachable(field.value)
  }

  function ReachableItems(l: Peek, i: nat): set<nat>
    requires l.List? && i <= |l.items|
    decreases l, 0, |l.items| - i
  {
    if i == |l.items| then {} else Reachable(l.items[i]) + ReachableItems(l, i + 1)
  }

  /** A walk never forgets an address nor overwrites the depth at which it was first seen, and it
      records only addresses it can reach. */
  lemma {:induction false} RenderVisited(pp: PrettyPrinter, p: Peek, fd: nat, td: nat, v: map<nat, nat>)
    ensures Extends(v, pp.Render(p, fd, td, v).visited)
    ensures pp.Render(p, fd, td, v).visited.Keys <= v.Keys + Reachable(p)
    decreases p, 3, 0
  {
    if !(pp.maxDepth.Some? && fd > pp.maxDepth.value) && !(p.addr in v && td > v[p.addr] + 1) {
      var v' := if p.addr in v then v else v[p.addr := td];
      DispatchVisited(pp, p, fd, td, v');
    }
  }

  lemma {:induction false} DispatchVisited(pp: PrettyPrinter, p: Peek, fd: nat, td: nat, v: map<nat, nat>)
    ensures Extends(v, pp.Dispatch(p, fd, td, v).visited)
    ensures pp.Dispatch(p, fd, td, v).visited.Keys <= v.Keys + Reachable(p)
    decreases p, 2, 0
  {
    match p
    case Value(_, _, _, _) =>
    case Struct(_, _, _) => StructVisited(pp, p, fd + 1, td, v);
    case List(_, _, _) => ListVisited(pp, p, fd + 1, td, v);
    case Map(_, _) =>
  }

  lemma {:induction false} StructVisited(pp: PrettyPrinter, s: Peek, fd: nat, td: nat, v: map<nat, nat>)
    requires s.Struct? && fd >= 1
    ensures Extends(v, pp.RenderStruct(s, fd, td, v).visited)
    ensures pp.RenderStruct(s, fd, td, v).visited.Keys <= v.Keys + Reachable(s)
    decreases s, 1, 0
  {
    if |s.fields| > 0 {
      FieldsVisited(pp, s, 0, fd, td, v);
    }
  }

  lemma {:induction false} FieldsVisited(pp: PrettyPrinter, s: Peek, i: nat, fd: nat, td: nat, v: map<nat, nat>)
    requires s.Struct? && i <= |s.fields|
    ensures Extends(v, pp.RenderFields(s, i, fd, td, v).visited)
    ensures pp.RenderFields(s, i, fd, td, v).visited.Keys <= v.Keys + ReachableFields(s, i)
    decreases s, 0, |s.fields| - i
  {
    if i < |s.fields| {
      var line := pp.RenderField(s.fields[i], fd, td, v);
      FieldVisited(pp, s.fields[i], fd, td, v);
      FieldsVisited(pp, s, i + 1, fd, td, line.visited);
    }
  }

  lemma {:induction false} FieldVisited(pp: PrettyPrinter, field: Field, fd: nat, td: nat, v: map<nat, nat>)
    ensures Extends(v, pp.RenderField(field, fd, td, v).visited)
    ensures pp.RenderField(field, fd, td, v).visited.Keys <= v.Keys + ReachableField(field)
    decreases field, 0, 0
  {
    if !field.sensitive {
      RenderVisited(pp, field.value, fd + 1, td + 1, v);
    }
  }

  lemma {:induction false} ListVisited(pp: PrettyPrinter, l: Peek, fd: nat, td: nat, v: map<nat, nat>)
    requires l.List?
    ensures Extends(v, pp.RenderList(l, fd, td, v).visited)
    ensures pp.RenderList(l, fd, td, v).visited.Keys <= v.Keys + Reachable(l)
    decreases l, 1, 0
  {
    ItemsVisited(pp, l, 0, fd, td, v);
  }

  lemma {:induction false} ItemsVisited(pp: PrettyPrinter, l: Peek, i: nat, fd: nat, td: nat, v: map<nat, nat>)
    requires l.List? && i <= |l.items|
    ensures Extends(v, pp.RenderItems(l, i, fd, td, v).visited)
    ensures pp.RenderItems(l, i, fd, td, v).visited.Keys <= v.Keys + ReachableItems(l, i)
    decreases l, 0, |l.items| - i
  {
    if i < |l.items| {
      var line := pp.RenderItem(l.items[i], i < |l.items| - 1, fd, td, v);
      ItemVisited(pp, l.items[i], i < |l.items| - 1, fd, td, v);
      ItemsVisited(pp, l, i + 1, fd, td, line.visited);
    }
  }

  lemma {:induction false} ItemVisited(pp: PrettyPrinter, item: Peek, comma: bool, fd: nat, td: nat, v: map<nat, nat>)
    ensures Extends(v, pp.RenderItem(item, comma, fd, td, v).visited)
    ensures pp.RenderItem(item, comma, fd, td, v).visited.Keys <= v.Keys + Reachable(item)
    decreases item, 4, 0
  {
    RenderVisited(pp, item, fd + 1, td + 1, v);
  }

  /** The first visit of an address that the depth limit lets through records the type depth of that
      visit, and later visits keep it. */
  lemma FirstVisitRecordsTypeDepth(pp: PrettyPrinter, p: Peek, fd: nat, td: nat, v: map<nat, nat>)
    requires !(pp.maxDepth.Some? && fd > pp.maxDepth.value) && p.addr !in v
    ensures p.addr in pp.Render(p, fd, td, v).visited
    ensures pp.Render(p, fd, td, v).visited[p.addr] == td
  {
    DispatchVisited(pp, p, fd, td, v[p.addr := td]);
  }

  /** A redacted value's addresses are never recorded, unless reached some other way. */
  lemma SensitiveValueNotVisited(pp: PrettyPrinter, field: Field, fd: nat, td: nat, v: map<nat, nat>)
    requires field.sensitive
    ensures pp.RenderField(field, fd, td, v).visited == v
    ensures pp.RenderField(field, fd, td, v).pieces
      == pp.FieldHead(field, fd) + pp.StyleRedacted("[REDACTED]") + pp.StylePunctuation(",") + [Newline]
  {
  }

  // ---------------------------------------------------------------------------------------------
  // Colours off
  // ---------------------------------------------------------------------------------------------

  /** A styled write with colours off is its text alone: the coloured write with its style commands
      dropped. */
  lemma StripStyled(pp: PrettyPrinter, prefix: seq<Piece>, text: string)
    requires forall i :: 0 <= i < |prefix| ==> !prefix[i].Lit?
    ensures Strip(pp.Styled(prefix, text)) == pp.WithColors(false).Styled(prefix, text)
  {
    StyledKeepsText(pp, prefix, text);
    StyledKeepsText(pp.WithColors(false), prefix, text);
  }

  /** A single literal is left as it is by `Strip`. */
  lemma StripLit(t: string)
    ensures Strip([Lit(t)]) == [Lit(t)]
  {
    StripPlain([Lit(t)]);
  }

  lemma StripTruncated(pp: PrettyPrinter)
    ensures Strip(pp.Truncated()) == pp.WithColors(false).Truncated()
  {
    StripStyled(pp, [Dim], "[");
    StripConcat(pp.StylePunctuation("["), [Lit("...")]);
  }

  lemma StripCycleMarker(pp: PrettyPrinter, p: Peek, firstSeen: nat)
    ensures Strip(pp.CycleMarker(p, firstSeen)) == pp.WithColors(false).CycleMarker(p, firstSeen)
  {
    var a, b := pp.StyleTypeName(p.typeName), pp.StylePunctuation(" { ");
    var c, d := pp.StyleComment(CycleComment(p.addr, firstSeen)), pp.StylePunctuation(" }");
    StripStyled(pp, [Bold], p.typeName);
    StripStyled(pp, [Dim], " { ");
    StripStyled(pp, [Dim], CycleComment(p.addr, firstSeen));
    StripStyled(pp, [Dim], " }");
    StripConcat(a + b + c, d);
    StripConcat(a + b, c);
    StripConcat(a, b);
  }

  lemma StripValuePieces(pp: PrettyPrinter, p: Peek)
    requires p.Value?
    ensures Strip(pp.ValuePieces(p)) == pp.WithColors(false).ValuePieces(p)
  {
    var t := pp.ScalarText(p);
    assert pp.WithColors(false).ScalarText(p) == t;
    if pp.useColors {
      assert [Foreground, Lit(t), Reset][1..] == [Lit(t), Reset];
      assert [Lit(t), Reset][1..] == [Reset];
      assert [Reset][1..] == [];
      assert Strip([Reset]) == [];
      assert Strip([Lit(t), Reset]) == [Lit(t)] + Strip([Reset]);
    } else {
      StripLit(t);
    }
  }

  lemma StripMapPieces(pp: PrettyPrinter, m: Peek, fd: nat)
    requires m.Map?
    ensures Strip(pp.MapPieces(m, fd)) == pp.WithColors(false).MapPieces(m, fd)
  {
    var a, b := pp.StyleTypeName(m.typeName), pp.StylePunctuation(" {");
    var c, d := [Newline], [Lit(Spaces((fd + 1) * pp.indentSize))];
    var e, f := pp.StyleComment("/* Map contents */"), [Newline];
    var g, h := [Lit(Spaces(fd * pp.indentSize))], pp.StylePunctuation("}");
    StripStyled(pp, [Bold], m.typeName);
    StripStyled(pp, [Dim], " {");
    StripStyled(pp, [Dim], "/* Map contents */");
    StripStyled(pp, [Dim], "}");
    StripLit("\n");
    StripLit(Spaces((fd + 1) * pp.indentSize));
    StripLit(Spaces(fd * pp.indentSize));
    StripConcat(a + b + c + d + e + f + g, h);
    StripConcat(a + b + c + d + e + f, g);
    StripConcat(a + b + c + d + e, f);
    StripConcat(a + b + c + d, e);
    StripConcat(a + b + c, d);
    StripConcat(a + b, c);
    StripConcat(a, b);
  }

  /** Switching colours off removes the style commands and nothing else: the plain output is the
      coloured output stripped, and the walk visits the same addresses. */
  lemma {:induction false} RenderColorsOff(pp: PrettyPrinter, p: Peek, fd: nat, td: nat, v: map<nat, nat>)
    ensures Strip(pp.Render(p, fd, td, v).pieces) == pp.WithColors(false).Render(p, fd, td, v).pieces
    ensures pp.Render(p, fd, td, v).visited == pp.WithColors(false).Render(p, fd, td, v).visited
    decreases p, 3, 0
  {
    UnfoldRender(pp, p, fd, td, v);
    UnfoldRender(pp.WithColors(false), p, fd, td, v);
    if pp.maxDepth.Some? && fd > pp.maxDepth.value {
      StripTruncated(pp);
    } else if p.addr in v && td > v[p.addr] + 1 {
      StripCycleMarker(pp, p, v[p.addr]);
    } else {
      DispatchColorsOff(pp, p, fd, td, if p.addr in v then v else v[p.addr := td]);
    }
  }

  lemma {:induction false} DispatchColorsOff(pp: PrettyPrinter, p: Peek, fd: nat, td: nat, v: map<nat, nat>)
    ensures Strip(pp.Dispatch(p, fd, td, v).pieces) == pp.WithColors(false).Dispatch(p, fd, td, v).pieces
    ensures pp.Dispatch(p, fd, td, v).visited == pp.WithColors(false).Dispatch(p, fd, td, v).visited
    decreases p, 2, 0
  {
    UnfoldDispatch(pp, p, fd, td, v);
    UnfoldDispatch(pp.WithColors(false), p, fd, td, v);
    match p
    case Value(_, _, _, _) => StripValuePieces(pp, p);
    case Struct(_, _, _) => StructColorsOff(pp, p, fd + 1, td, v);
    case List(_, _, _) => ListColorsOff(pp, p, fd + 1, td, v);
    case Map(_, _) => StripMapPieces(pp, p, fd + 1);
  }

  lemma UnfoldDispatch(pp: PrettyPrinter, p: Peek, fd: nat, td: nat, v: map<nat, nat>)
    ensures p.Value? ==> pp.Dispatch(p, fd, td, v) == Rendered(pp.ValuePieces(p), v)
    ensures p.Struct? ==> pp.Dispatch(p, fd, td, v) == pp.RenderStruct(p, fd + 1, td, v)
    ensures p.List? ==> pp.Dispatch(p, fd, td, v) == pp.RenderList(p, fd + 1, td, v)
    ensures p.Map? ==> pp.Dispatch(p, fd, td, v) == Rendered(pp.MapPieces(p, fd + 1), v)
  {
  }

  lemma {:induction false} StructColorsOff(pp: PrettyPrinter, s: Peek, fd: nat, td: nat, v: map<nat, nat>)
    requires s.Struct? && fd >= 1
    ensures Strip(pp.RenderStruct(s, fd, td, v).pieces) == pp.WithColors(false).RenderStruct(s, fd, td, v).pieces
    ensures pp.RenderStruct(s, fd, td, v).visited == pp.WithColors(false).RenderStruct(s, fd, td, v).visited
    decreases s, 1, 0
  {
    var a, b := pp.StyleTypeName(s.typeName), pp.StylePunctuation(" {");
    if |s.fields| > 0 {
      UnfoldStruct(pp, s, fd, td, v);
      UnfoldStruct(pp.WithColors(false), s, fd, td, v);
    }
    StripStyled(pp, [Bold], s.typeName);
    StripStyled(pp, [Dim], " {");
    StripConcat(a, b);
    if |s.fields| == 0 {
      StripStyled(pp, [Dim], " }");
      StripConcat(a + b, pp.StylePunctuation(" }"));
    } else {
      var c, d := [Newline], pp.RenderFields(s, 0, fd, td, v).pieces;
      var e, f := [Lit(Spaces((fd - 1) * pp.indentSize))], pp.StylePunctuation("}");
      FieldsColorsOff(pp, s, 0, fd, td, v);
      StripStyled(pp, [Dim], "}");
      StripLit("\n");
      StripLit(Spaces((fd - 1) * pp.indentSize));
      StripConcat(a + b + c + d + e, f);
      StripConcat(a + b + c + d, e);
      StripConcat(a + b + c, d);
      StripConcat(a + b, c);
    }
  }

  lemma {:induction false} FieldsColorsOff(pp: PrettyPrinter, s: Peek, i: nat, fd: nat, td: nat, v: map<nat, nat>)
    requires s.Struct? && i <= |s.fields|
    ensures Strip(pp.RenderFields(s, i, fd, td, v).pieces) == pp.WithColors(false).RenderFields(s, i, fd, td, v).pieces
    ensures pp.RenderFields(s, i, fd, td, v).visited == pp.WithColors(false).RenderFields(s, i, fd, td, v).visited
    decreases s, 0, |s.fields| - i
  {
    if i < |s.fields| {
      var line := pp.RenderField(s.fields[i], fd, td, v);
      FieldColorsOff(pp, s.fields[i], fd, td, v);
      FieldsColorsOff(pp, s, i + 1, fd, td, line.visited);
      StripConcat(line.pieces, pp.RenderFields(s, i + 1, fd, td, line.visited).pieces);
    }
  }

  lemma {:induction false} FieldColorsOff(pp: PrettyPrinter, field: Field, fd: nat, td: nat, v: map<nat, nat>)
    ensures Strip(pp.RenderField(field, fd, td, v).pieces) == pp.WithColors(false).RenderField(field, fd, td, v).pieces
    ensures pp.RenderField(field, fd, td, v).visited == pp.WithColors(false).RenderField(field, fd, td, v).visited
    decreases field, 0, 0
  {
    UnfoldField(pp, field, fd, td, v);
    UnfoldField(pp.WithColors(false), field, fd, td, v);
    var a, b := [Lit(Spaces((fd + 1) * pp.indentSize))], pp.StyleFieldName(field.name);
    var c := pp.StylePunctuation(": ");
    var value := if field.sensitive then Rendered(pp.StyleRedacted("[REDACTED]"), v)
                 else pp.Render(field.value, fd + 1, td + 1, v);
    var d, e, f := value.pieces, pp.StylePunctuation(","), [Newline];
    StripStyled(pp, [Rgb(114, 160, 193)], field.name);
    StripStyled(pp, [Dim], ": ");
    StripStyled(pp, [Dim], ",");
    StripLit("\n");
    StripLit(Spaces((fd + 1) * pp.indentSize));
    if field.sensitive {
      StripStyled(pp, [Rgb(224, 49, 49), Bold], "[REDACTED]");
    } else {
      RenderColorsOff(pp, field.value, fd + 1, td + 1, v);
    }
    StripConcat(a + b + c + d + e, f);
    StripConcat(a + b + c + d, e);
    StripConcat(a + b + c, d);
    StripConcat(a + b, c);
    StripConcat(a, b);
  }

  lemma {:induction false} ListColorsOff(pp: PrettyPrinter, l: Peek, fd: nat, td: nat, v: map<nat, nat>)
    requires l.List?
    ensures Strip(pp.RenderList(l, fd, td, v).pieces) == pp.WithColors(false).RenderList(l, fd, td, v).pieces
    ensures pp.RenderList(l, fd, td, v).visited == pp.WithColors(false).RenderList(l, fd, td, v).visited
    decreases l, 1, 0
  {
    var a, b, c := pp.StyleTypeName(l.typeName), pp.StylePunctuation(" ["), [Newline];
    var d := pp.RenderItems(l, 0, fd, td, v).pieces;
    var e, f := [Lit(Spaces(fd * pp.indentSize))], pp.StylePunctuation("]");
    ItemsColorsOff(pp, l, 0, fd, td, v);
    StripStyled(pp, [Bold], l.typeName);
    StripStyled(pp, [Dim], " [");
    StripStyled(pp, [Dim], "]");
    StripLit("\n");
    StripLit(Spaces(fd * pp.indentSize));
    StripConcat(a + b + c + d + e, f);
    StripConcat(a + b + c + d, e);
    StripConcat(a + b + c, d);
    StripConcat(a + b, c);
    StripConcat(a, b);
  }

  lemma {:induction false} ItemsColorsOff(pp: PrettyPrinter, l: Peek, i: nat, fd: nat, td: nat, v: map<nat, nat>)
    requires l.List? && i <= |l.items|
    ensures Strip(pp.RenderItems(l, i, fd, td, v).pieces) == pp.WithColors(false).RenderItems(l, i, fd, td, v).pieces
    ensures pp.RenderItems(l, i, fd, td, v).visited == pp.WithColors(false).RenderItems(l, i, fd, td, v).visited
    decreases l, 0, |l.items| - i
  {
    if i < |l.items| {
      var line := pp.RenderItem(l.items[i], i < |l.items| - 1, fd, td, v);
      ItemColorsOff(pp, l.items[i], i < |l.items| - 1, fd, td, v);
      ItemsColorsOff(pp, l, i + 1, fd, td, line.visited);
      StripConcat(line.pieces, pp.RenderItems(l, i + 1, fd, td, line.visited).pieces);
    }
  }

  lemma {:induction false} ItemColorsOff(pp: PrettyPrinter, item: Peek, comma: bool, fd: nat, td: nat, v: map<nat, nat>)
    ensures Strip(pp.RenderItem(item, comma, fd, td, v).pieces) == pp.WithColors(false).RenderItem(item, comma, fd, td, v).pieces
    ensures pp.RenderItem(item, comma, fd, td, v).visited == pp.WithColors(false).RenderItem(item, comma, fd, td, v).visited
    decreases item, 4, 0
  {
    var a := [Lit(Spaces((fd + 1) * pp.indentSize))];
    var b := pp.Render(item, fd + 1, td + 1, v).pieces;
    var c, d := (if comma then pp.StylePunctuation(",") else []), [Newline];
    RenderColorsOff(pp, item, fd + 1, td + 1, v);
    StripStyled(pp, [Dim], ",");
    StripLit("\n");
    StripLit(Spaces((fd + 1) * pp.indentSize));
    StripConcat(a + b + c, d);
    StripConcat(a + b, c);
    StripConcat(a, b);
  }

  /** With colours off the printer writes no style command, and the text a reader sees does not depend
      on whether colours are on. */
  lemma ColorsOffIsPlain(pp: PrettyPrinter, p: Peek)
    ensures Plain(pp.WithColors(false).Render(p, 0, 0, map[]).pieces)
    ensures Text(pp.WithColors(false).Render(p, 0, 0, map[]).pieces) == Text(pp.WithColors(true).Render(p, 0, 0, map[]).pieces)
  {
    RenderColorsOff(pp.WithColors(true), p, 0, 0, map[]);
    assert pp.WithColors(true).WithColors(false) == pp.WithColors(false);
  }

  // ---------------------------------------------------------------------------------------------
  // Redaction
  // ---------------------------------------------------------------------------------------------

  /** Two structs that differ at most in the values of their sensitive fields. */
  predicate SameUpToSensitive(s1: Peek, s2: Peek)
  {
    s1.Struct? && s2.Struct? && s1.addr == s2.addr && s1.typeName == s2.typeName
    && |s1.fields| == |s2.fields|
    && forall i :: 0 <= i < |s1.fields| ==>
         s1.fields[i].name == s2.fields[i].name && s1.fields[i].sensitive == s2.fields[i].sensitive
         && (!s1.fields[i].sensitive ==> s1.fields[i].value == s2.fields[i].value)
  }

  lemma {:induction false} FieldsHideSensitive(pp: PrettyPrinter, s1: Peek, s2: Peek, i: nat, fd: nat, td: nat,
                                               v: map<nat, nat>)
    requires SameUpToSensitive(s1, s2) && i <= |s1.fields|
    ensures pp.RenderFields(s1, i, fd, td, v) == pp.RenderFields(s2, i, fd, td, v)
    decreases |s1.fields| - i
  {
    UnfoldFields(pp, s1, i, fd, td, v);
    UnfoldFields(pp, s2, i, fd, td, v);
    if i < |s1.fields| {
      var f1, f2 := s1.fields[i], s2.fields[i];
      UnfoldField(pp, f1, fd, td, v);
      UnfoldField(pp, f2, fd, td, v);
      var line := pp.RenderField(f1, fd, td, v);
      assert pp.RenderField(f2, fd, td, v) == line;
      FieldsHideSensitive(pp, s1, s2, i + 1, fd, td, line.visited);
    }
  }

  /** Nothing of a sensitive field's value reaches the output or the visited map: structs that differ
      only there render identically. */
  lemma SensitiveValuesAreHidden(pp: PrettyPrinter, s1: Peek, s2: Peek, fd: nat, td: nat, v: map<nat, nat>)
    requires SameUpToSensitive(s1, s2)
    ensures pp.Render(s1, fd, td, v) == pp.Render(s2, fd, td, v)
  {
    UnfoldRender(pp, s1, fd, td, v);
    UnfoldRender(pp, s2, fd, td, v);
    var v' := if s1.addr in v then v else v[s1.addr := td];
    UnfoldDispatch(pp, s1, fd, td, v');
    UnfoldDispatch(pp, s2, fd, td, v');
    if |s1.fields| > 0 {
      UnfoldStruct(pp, s1, fd + 1, td, v');
      UnfoldStruct(pp, s2, fd + 1, td, v');
      FieldsHideSensitive(pp, s1, s2, 0, fd + 1, td, v');
    }
  }

  // ---------------------------------------------------------------------------------------------
  // Separators
  // ---------------------------------------------------------------------------------------------

  /** The two separators the printer writes as pieces of their own. */
  predicate Separator(t: string)
  {
    t == "," || t == "\n"
  }

  /** A scalar whose text and type name are not, as a whole, the separator `t`; a text that merely
      contains `t` (such as `1,5`) still writes no separator piece. */
  predicate ScalarAvoids(pp: PrettyPrinter, p: Peek, t: string)
  {
    p.Value? && pp.ScalarText(p) != t && p.typeName != t
  }

  lemma CountLitOne(x: Piece, t: string)
    ensures CountLit([x], t) == if x == Lit(t) then 1 else 0
  {
    assert [x][1..] == [];
  }

  lemma {:induction false} CountStylesOnly(prefix: seq<Piece>, t: string)
    requires forall i :: 0 <= i < |prefix| ==> !prefix[i].Lit?
    ensures CountLit(prefix, t) == 0
  {
    if |prefix| > 0 {
      CountStylesOnly(prefix[1..], t);
    }
  }

  /** A styled write holds the literal `t` once if its text is `t`, and not at all otherwise. */
  lemma CountStyled(pp: PrettyPrinter, prefix: seq<Piece>, text: string, t: string)
    requires forall i :: 0 <= i < |prefix| ==> !prefix[i].Lit?
    ensures CountLit(pp.Styled(prefix, text), t) == if text == t then 1 else 0
  {
    if pp.useColors {
      CountLitConcat(prefix, [Lit(text), Reset], t);
      CountStylesOnly(prefix, t);
      CountLitConcat([Lit(text)], [Reset], t);
      CountLitOne(Lit(text), t);
      CountLitOne(Reset, t);
    } else {
      CountLitOne(Lit(text), t);
    }
  }

  lemma SpacesAreNoSeparator(w: nat, t: string)
    requires Separator(t)
    ensures Spaces(w) != t
  {
    if w > 0 {
      assert Spaces(w)[0] == ' ';
    }
  }

  lemma CycleCommentIsNoSeparator(addr: nat, firstSeen: nat, t: string)
    requires Separator(t)
    ensures CycleComment(addr, firstSeen) != t
  {
    var c := CycleComment(addr, firstSeen);
    assert c[0] == '/';
  }

  lemma TruncatedHasNoSeparator(pp: PrettyPrinter, t: string)
    requires Separator(t)
    ensures CountLit(pp.Truncated(), t) == 0
  {
    CountStyled(pp, [Dim], "[", t);
    CountLitConcat(pp.StylePunctuation("["), [Lit("...")], t);
    CountLitOne(Lit("..."), t);
  }

  lemma CycleMarkerHasNoSeparator(pp: PrettyPrinter, p: Peek, firstSeen: nat, t: string)
    requires Separator(t) && p.typeName != t
    ensures CountLit(pp.CycleMarker(p, firstSeen), t) == 0
  {
    var a, b := pp.StyleTypeName(p.typeName), pp.StylePunctuation(" { ");
    var c, d := pp.StyleComment(CycleComment(p.addr, firstSeen)), pp.StylePunctuation(" }");
    CountStyled(pp, [Bold], p.typeName, t);
    CountStyled(pp, [Dim], " { ", t);
    CountStyled(pp, [Dim], CycleComment(p.addr, firstSeen), t);
    CycleCommentIsNoSeparator(p.addr, firstSeen, t);
    CountStyled(pp, [Dim], " }", t);
    CountLitConcat(a + b + c, d, t);
    CountLitConcat(a + b, c, t);
    CountLitConcat(a, b, t);
  }

  /** A scalar writes no separator, whether printed, cut off by the depth limit or cut off as a cycle. */
  lemma ScalarHasNoSeparator(pp: PrettyPrinter, p: Peek, fd: nat, td: nat, v: map<nat, nat>, t: string)
    requires Separator(t) && ScalarAvoids(pp, p, t)
    ensures CountLit(pp.Render(p, fd, td, v).pieces, t) == 0
  {
    UnfoldRender(pp, p, fd, td, v);
    if pp.maxDepth.Some? && fd > pp.maxDepth.value {
      TruncatedHasNoSeparator(pp, t);
    } else if p.addr in v && td > v[p.addr] + 1 {
      CycleMarkerHasNoSeparator(pp, p, v[p.addr], t);
    } else {
      var v' := if p.addr in v then v else v[p.addr := td];
      UnfoldDispatch(pp, p, fd, td, v');
      var x := pp.ScalarText(p);
      if pp.useColors {
        CountLitConcat([Foreground], [Lit(x), Reset], t);
        CountLitConcat([Lit(x)], [Reset], t);
        CountLitOne(Foreground, t);
        CountLitOne(Lit(x), t);
        CountLitOne(Reset, t);
        assert [Foreground] + ([Lit(x)] + [Reset]) == [Foreground, Lit(x), Reset];
      } else {
        CountLitOne(Lit(x), t);
      }
    }
  }

  /** The literals `t` that items `i..` of a list write inside their own values, with the visited map
      handed from item to item as the list hands it. */
  function ItemsInner(pp: PrettyPrinter, l: Peek, i: nat, fd: nat, td: nat, v: map<nat, nat>, t: string): nat
    requires l.List? && i <= |l.items|
    decreases |l.items| - i
  {
    if i == |l.items| then 0 else
      var value := pp.Render(l.items[i], fd + 1, td + 1, v);
      CountLit(value.pieces, t) + ItemsInner(pp, l, i + 1, fd, td, value.visited, t)
  }

  /** Every list item is followed by a newline, and every item but the last by a comma, on top of
      whatever the item itself writes. */
  lemma ItemSeparators(pp: PrettyPrinter, item: Peek, comma: bool, fd: nat, td: nat, v: map<nat, nat>, t: string)
    requires Separator(t)
    ensures CountLit(pp.RenderItem(item, comma, fd, td, v).pieces, t)
      == CountLit(pp.Render(item, fd + 1, td + 1, v).pieces, t) + (if t == "," then (if comma then 1 else 0) else 1)
  {
    UnfoldItem(pp, item, comma, fd, td, v);
    var a := [Lit(Spaces((fd + 1) * pp.indentSize))];
    var b := pp.Render(item, fd + 1, td + 1, v).pieces;
    var c, d := (if comma then pp.StylePunctuation(",") else []), [Newline];
    SpacesAreNoSeparator((fd + 1) * pp.indentSize, t);
    CountLitOne(Lit(Spaces((fd + 1) * pp.indentSize)), t);
    CountLitOne(Newline, t);
    CountStyled(pp, [Dim], ",", t);
    CountLitConcat(a + b + c, d, t);
    CountLitConcat(a + b, c, t);
    CountLitConcat(a, b, t);
  }

  lemma {:induction false} ItemsSeparators(pp: PrettyPrinter, l: Peek, i: nat, fd: nat, td: nat, v: map<nat, nat>, t: string)
    requires l.List? && i <= |l.items| && Separator(t)
    ensures CountLit(pp.RenderItems(l, i, fd, td, v).pieces, t)
      == (if t == "," then (if i < |l.items| then |l.items| - 1 - i else 0) else |l.items| - i)
         + ItemsInner(pp, l, i, fd, td, v, t)
    decreases |l.items| - i
  {
    UnfoldItems(pp, l, i, fd, td, v);
    if i < |l.items| {
      var line := pp.RenderItem(l.items[i], i < |l.items| - 1, fd, td, v);
      UnfoldItem(pp, l.items[i], i < |l.items| - 1, fd, td, v);
      ItemSeparators(pp, l.items[i], i < |l.items| - 1, fd, td, v, t);
      ItemsSeparators(pp, l, i + 1, fd, td, line.visited, t);
      CountLitConcat(line.pieces, pp.RenderItems(l, i + 1, fd, td, line.visited).pieces, t);
    }
  }

  /** A list of n items writes n-1 `,` separator pieces (none when empty) and n+1 line-break pieces of
      its own, whatever its items are; every other such piece is its type name or written inside its
      items. Commas and newlines inside a longer piece of text are not counted. */
  lemma ListSeparators(pp: PrettyPrinter, l: Peek, fd: nat, td: nat, v: map<nat, nat>, t: string)
    requires l.List? && Separator(t)
    requires !(pp.maxDepth.Some? && fd > pp.maxDepth.value) && !(l.addr in v && td > v[l.addr] + 1)
    ensures var v' := if l.addr in v then v else v[l.addr := td];
      CountLit(pp.Render(l, fd, td, v).pieces, t)
        == (if l.typeName == t then 1 else 0)
           + (if t == "," then (if |l.items| == 0 then 0 else |l.items| - 1) else |l.items| + 1)
           + ItemsInner(pp, l, 0, fd + 1, td, v', t)
  {
    UnfoldRender(pp, l, fd, td, v);
    var v' := if l.addr in v then v else v[l.addr := td];
    UnfoldDispatch(pp, l, fd, td, v');
    UnfoldList(pp, l, fd + 1, td, v');
    var a, b, c := pp.StyleTypeName(l.typeName), pp.StylePunctuation(" ["), [Newline];
    var d := pp.RenderItems(l, 0, fd + 1, td, v').pieces;
    var e, f := [Lit(Spaces((fd + 1) * pp.indentSize))], pp.StylePunctuation("]");
    ItemsSeparators(pp, l, 0, fd + 1, td, v', t);
    CountStyled(pp, [Bold], l.typeName, t);
    CountStyled(pp, [Dim], " [", t);
    CountStyled(pp, [Dim], "]", t);
    CountLitOne(Newline, t);
    SpacesAreNoSeparator((fd + 1) * pp.indentSize, t);
    CountLitOne(Lit(Spaces((fd + 1) * pp.indentSize)), t);
    CountLitConcat(a + b + c + d + e, f, t);
    CountLitConcat(a + b + c + d, e, t);
    CountLitConcat(a + b + c, d, t);
    CountLitConcat(a + b, c, t);
    CountLitConcat(a, b, t);
  }

  /** Scalars that avoid `t` add no `t` inside themselves. */
  lemma {:induction false} ScalarItemsAddNone(pp: PrettyPrinter, l: Peek, i: nat, fd: nat, td: nat, v: map<nat, nat>, t: string)
    requires l.List? && i <= |l.items| && Separator(t)
    requires forall k :: 0 <= k < |l.items| ==> ScalarAvoids(pp, l.items[k], t)
    ensures ItemsInner(pp, l, i, fd, td, v, t) == 0
    decreases |l.items| - i
  {
    if i < |l.items| {
      ScalarHasNoSeparator(pp, l.items[i], fd + 1, td + 1, v, t);
      ScalarItemsAddNone(pp, l, i + 1, fd, td, pp.Render(l.items[i], fd + 1, td + 1, v).visited, t);
    }
  }

  /** A list of scalars writes one `,` separator piece fewer than it has items, and one line-break
      piece more: every item sits on a line of its own, and an empty list still opens and closes on
      separate lines. Commas inside a scalar's text (such as `1,5`) are not counted. */
  lemma ScalarListSeparators(pp: PrettyPrinter, l: Peek, fd: nat, td: nat, v: map<nat, nat>, t: string)
    requires l.List? && Separator(t) && l.typeName != t
    requires forall k :: 0 <= k < |l.items| ==> ScalarAvoids(pp, l.items[k], t)
    requires !(pp.maxDepth.Some? && fd > pp.maxDepth.value) && !(l.addr in v && td > v[l.addr] + 1)
    ensures CountLit(pp.Render(l, fd, td, v).pieces, t)
      == if t == "," then (if |l.items| == 0 then 0 else |l.items| - 1) else |l.items| + 1
  {
    ListSeparators(pp, l, fd, td, v, t);
    ScalarItemsAddNone(pp, l, 0, fd + 1, td, if l.addr in v then v else v[l.addr := td], t);
  }

  /** The literals `t` that fields `i..` of a struct write in their names and, unless redacted, inside
      their values, with the visited map handed from field to field as the struct hands it. */
  function FieldsInner(pp: PrettyPrinter, s: Peek, i: nat, fd: nat, td: nat, v: map<nat, nat>, t: string): nat
    requires s.Struct? && i <= |s.fields|
    decreases |s.fields| - i
  {
    if i == |s.fields| then 0 else
      var field := s.fields[i];
      var name := if field.name == t then 1 else 0;
      if field.sensitive then name + FieldsInner(pp, s, i + 1, fd, td, v, t) else
        var value := pp.Render(field.value, fd + 1, td + 1, v);
        name + CountLit(value.pieces, t) + FieldsInner(pp, s, i + 1, fd, td, value.visited, t)
  }

  /** Every field line ends with a comma and a newline, the last one included, on top of whatever the
      field's name and value write. */
  lemma FieldSeparators(pp: PrettyPrinter, field: Field, fd: nat, td: nat, v: map<nat, nat>, t: string)
    requires Separator(t)
    ensures CountLit(pp.RenderField(field, fd, td, v).pieces, t)
      == (if field.name == t then 1 else 0)
         + (if field.sensitive then 0 else CountLit(pp.Render(field.value, fd + 1, td + 1, v).pieces, t)) + 1
  {
    UnfoldField(pp, field, fd, td, v);
    var a, b := [Lit(Spaces((fd + 1) * pp.indentSize))], pp.StyleFieldName(field.name);
    var c := pp.StylePunctuation(": ");
    var value := if field.sensitive then Rendered(pp.StyleRedacted("[REDACTED]"), v)
                 else pp.Render(field.value, fd + 1, td + 1, v);
    var d, e, f := value.pieces, pp.StylePunctuation(","), [Newline];
    if field.sensitive {
      CountStyled(pp, [Rgb(224, 49, 49), Bold], "[REDACTED]", t);
    }
    SpacesAreNoSeparator((fd + 1) * pp.indentSize, t);
    CountLitOne(Lit(Spaces((fd + 1) * pp.indentSize)), t);
    CountStyled(pp, [Rgb(114, 160, 193)], field.name, t);
    CountStyled(pp, [Dim], ": ", t);
    CountStyled(pp, [Dim], ",", t);
    CountLitOne(Newline, t);
    CountLitConcat(a + b + c + d + e, f, t);
    CountLitConcat(a + b + c + d, e, t);
    CountLitConcat(a + b + c, d, t);
    CountLitConcat(a + b, c, t);
    CountLitConcat(a, b, t);
  }

  lemma {:induction false} FieldsSeparators(pp: PrettyPrinter, s: Peek, i: nat, fd: nat, td: nat, v: map<nat, nat>, t: string)
    requires s.Struct? && i <= |s.fields| && Separator(t)
    ensures CountLit(pp.RenderFields(s, i, fd, td, v).pieces, t) == |s.fields| - i + FieldsInner(pp, s, i, fd, td, v, t)
    decreases |s.fields| - i
  {
    UnfoldFields(pp, s, i, fd, td, v);
    if i < |s.fields| {
      var line := pp.RenderField(s.fields[i], fd, td, v);
      UnfoldField(pp, s.fields[i], fd, td, v);
      FieldSeparators(pp, s.fields[i], fd, td, v, t);
      FieldsSeparators(pp, s, i + 1, fd, td, line.visited, t);
      CountLitConcat(line.pieces, pp.RenderFields(s, i + 1, fd, td, line.visited).pieces, t);
    }
  }

  /** A struct of n fields writes n `,` separator pieces of its own, the last field's included, and
      n+1 line-break pieces, or none when it has no field, whatever its fields hold; every other such
      piece is its type name or written in its fields' names and values. Commas and newlines inside a
      longer piece of text are not counted. */
  lemma StructSeparators(pp: PrettyPrinter, s: Peek, fd: nat, td: nat, v: map<nat, nat>, t: string)
    requires s.Struct? && Separator(t)
    requires !(pp.maxDepth.Some? && fd > pp.maxDepth.value) && !(s.addr in v && td > v[s.addr] + 1)
    ensures var v' := if s.addr in v then v else v[s.addr := td];
      CountLit(pp.Render(s, fd, td, v).pieces, t)
        == (if s.typeName == t then 1 else 0)
           + (if t == "," then |s.fields| else (if |s.fields| == 0 then 0 else |s.fields| + 1))
           + FieldsInner(pp, s, 0, fd + 1, td, v', t)
  {
    UnfoldRender(pp, s, fd, td, v);
    var v' := if s.addr in v then v else v[s.addr := td];
    UnfoldDispatch(pp, s, fd, td, v');
    var a, b := pp.StyleTypeName(s.typeName), pp.StylePunctuation(" {");
    CountStyled(pp, [Bold], s.typeName, t);
    CountStyled(pp, [Dim], " {", t);
    CountLitConcat(a, b, t);
    if |s.fields| == 0 {
      CountStyled(pp, [Dim], " }", t);
      CountLitConcat(a + b, pp.StylePunctuation(" }"), t);
    } else {
      UnfoldStruct(pp, s, fd + 1, td, v');
      var c, d := [Newline], pp.RenderFields(s, 0, fd + 1, td, v').pieces;
      var e, f := [Lit(Spaces(fd * pp.indentSize))], pp.StylePunctuation("}");
      FieldsSeparators(pp, s, 0, fd + 1, td, v', t);
      CountStyled(pp, [Dim], "}", t);
      CountLitOne(Newline, t);
      SpacesAreNoSeparator(fd * pp.indentSize, t);
      CountLitOne(Lit(Spaces(fd * pp.indentSize)), t);
      CountLitConcat(a + b + c + d + e, f, t);
      CountLitConcat(a + b + c + d, e, t);
      CountLitConcat(a + b + c, d, t);
      CountLitConcat(a + b, c, t);
    }
  }

  /** A field that is redacted, or whose value is a scalar avoiding `t`, and whose name is not `t`. */
  predicate FieldAvoids(pp: PrettyPrinter, field: Field, t: string)
  {
    field.name != t && (field.sensitive || ScalarAvoids(pp, field.value, t))
  }

  /** Redacted fields and scalar fields that avoid `t` add no `t` of their own. */
  lemma {:induction false} ScalarFieldsAddNone(pp: PrettyPrinter, s: Peek, i: nat, fd: nat, td: nat, v: map<nat, nat>, t: string)
    requires s.Struct? && i <= |s.fields| && Separator(t)
    requires forall k :: 0 <= k < |s.fields| ==> FieldAvoids(pp, s.fields[k], t)
    ensures FieldsInner(pp, s, i, fd, td, v, t) == 0
    decreases |s.fields| - i
  {
    if i < |s.fields| {
      var field := s.fields[i];
      if field.sensitive {
        ScalarFieldsAddNone(pp, s, i + 1, fd, td, v, t);
      } else {
        ScalarHasNoSeparator(pp, field.value, fd + 1, td + 1, v, t);
        ScalarFieldsAddNone(pp, s, i + 1, fd, td, pp.Render(field.value, fd + 1, td + 1, v).visited, t);
      }
    }
  }

  /** A struct of scalar or redacted fields writes one `,` separator piece per field, the last
      included, and one line-break piece more than it has fields; a struct without fields stays on
      one line. Commas inside a scalar's text are not counted. */
  lemma ScalarStructSeparators(pp: PrettyPrinter, s: Peek, fd: nat, td: nat, v: map<nat, nat>, t: string)
    requires s.Struct? && Separator(t) && s.typeName != t
    requires forall k :: 0 <= k < |s.fields| ==> FieldAvoids(pp, s.fields[k], t)
    requires !(pp.maxDepth.Some? && fd > pp.maxDepth.value) && !(s.addr in v && td > v[s.addr] + 1)
    ensures CountLit(pp.Render(s, fd, td, v).pieces, t)
      == if t == "," then |s.fields| else (if |s.fields| == 0 then 0 else |s.fields| + 1)
  {
    StructSeparators(pp, s, fd, td, v, t);
    ScalarFieldsAddNone(pp, s, 0, fd + 1, td, if s.addr in v then v else v[s.addr := td], t);
  }

  // ---------------------------------------------------------------------------------------------
  // The depth limit, the cycle check and the layout of each variant
  // ---------------------------------------------------------------------------------------------

  /** Past the depth limit a node is written as `[` and `...` and nothing is recorded. */
  lemma DepthLimitTruncates(pp: PrettyPrinter, p: Peek, fd: nat, td: nat, v: map<nat, nat>)
    requires pp.maxDepth.Some? && fd > pp.maxDepth.value
    ensures Strip(pp.Render(p, fd, td, v).pieces) == [Lit("["), Lit("...")]
    ensures Text(pp.Render(p, fd, td, v).pieces) == "[..."
    ensures pp.Render(p, fd, td, v).visited == v
  {
    UnfoldRender(pp, p, fd, td, v);
    StyledKeepsText(pp, [Dim], "[");
    StripConcat(pp.StylePunctuation("["), [Lit("...")]);
    TextConcat(pp.StylePunctuation("["), [Lit("...")]);
    StripLit("...");
    assert Text([Lit("...")]) == "..." + Text([]);
  }

  /** An address met again more than one type level below its first visit is cut off: the type name
      and the cycle comment, in braces, and nothing below it is walked or recorded. */
  lemma CycleIsCutOff(pp: PrettyPrinter, p: Peek, fd: nat, td: nat, v: map<nat, nat>)
    requires !(pp.maxDepth.Some? && fd > pp.maxDepth.value)
    requires p.addr in v && td > v[p.addr] + 1
    ensures Strip(pp.Render(p, fd, td, v).pieces)
      == [Lit(p.typeName), Lit(" { "), Lit(CycleComment(p.addr, v[p.addr])), Lit(" }")]
    ensures pp.Render(p, fd, td, v).visited == v
  {
    UnfoldRender(pp, p, fd, td, v);
    var c := CycleComment(p.addr, v[p.addr]);
    var a0, b0 := pp.StyleTypeName(p.typeName), pp.StylePunctuation(" { ");
    var c0, d0 := pp.StyleComment(c), pp.StylePunctuation(" }");
    StyledKeepsText(pp, [Bold], p.typeName);
    StyledKeepsText(pp, [Dim], " { ");
    StyledKeepsText(pp, [Dim], c);
    StyledKeepsText(pp, [Dim], " }");
    StripConcat(a0 + b0 + c0, d0);
    StripConcat(a0 + b0, c0);
    StripConcat(a0, b0);
  }

  /** A scalar the walk reaches is written as its `Display` text if it has one, else its `Debug`
      text, else its type name followed by `(⋯)`; its address is recorded on a first visit. */
  lemma ScalarRendering(pp: PrettyPrinter, p: Peek, fd: nat, td: nat, v: map<nat, nat>)
    requires p.Value? && !(pp.maxDepth.Some? && fd > pp.maxDepth.value) && !(p.addr in v && td > v[p.addr] + 1)
    ensures Strip(pp.Render(p, fd, td, v).pieces)
      == [Lit(if p.display.Some? then p.display.value
              else if p.debug.Some? then p.debug.value
              else p.typeName + "(\U{22EF})")]
    ensures pp.Render(p, fd, td, v).visited == if p.addr in v then v else v[p.addr := td]
  {
    UnfoldRender(pp, p, fd, td, v);
    var v' := if p.addr in v then v else v[p.addr := td];
    UnfoldDispatch(pp, p, fd, td, v');
    StripValuePieces(pp, p);
    StripLit(pp.ScalarText(p));
  }

  /** A struct without fields is written on one line: its type name, ` {` and ` }`. */
  lemma EmptyStructRendering(pp: PrettyPrinter, s: Peek, fd: nat, td: nat, v: map<nat, nat>)
    requires s.Struct? && |s.fields| == 0
    requires !(pp.maxDepth.Some? && fd > pp.maxDepth.value) && !(s.addr in v && td > v[s.addr] + 1)
    ensures Strip(pp.Render(s, fd, td, v).pieces) == [Lit(s.typeName), Lit(" {"), Lit(" }")]
    ensures Text(pp.Render(s, fd, td, v).pieces) == s.typeName + " { }"
  {
    UnfoldRender(pp, s, fd, td, v);
    var v' := if s.addr in v then v else v[s.addr := td];
    UnfoldDispatch(pp, s, fd, td, v');
    var a, b, c := pp.StyleTypeName(s.typeName), pp.StylePunctuation(" {"), pp.StylePunctuation(" }");
    StyledKeepsText(pp, [Bold], s.typeName);
    StyledKeepsText(pp, [Dim], " {");
    StyledKeepsText(pp, [Dim], " }");
    StripConcat(a + b, c);
    StripConcat(a, b);
    TextOfThree(s.typeName, " {", " }");
  }

  /** A struct with fields opens with its type name and ` {` and a newline, writes its field lines at
      the next level, and closes with `}` indented to its own level, never less than nothing. */
  lemma StructLayout(pp: PrettyPrinter, s: Peek, fd: nat, td: nat, v: map<nat, nat>)
    requires s.Struct? && |s.fields| > 0
    requires !(pp.maxDepth.Some? && fd > pp.maxDepth.value) && !(s.addr in v && td > v[s.addr] + 1)
    ensures var v' := if s.addr in v then v else v[s.addr := td];
      Strip(pp.Render(s, fd, td, v).pieces)
        == [Lit(s.typeName), Lit(" {"), Newline] + Strip(pp.RenderFields(s, 0, fd + 1, td, v').pieces)
           + [Lit(Spaces(fd * pp.indentSize)), Lit("}")]
  {
    UnfoldRender(pp, s, fd, td, v);
    var v' := if s.addr in v then v else v[s.addr := td];
    UnfoldDispatch(pp, s, fd, td, v');
    UnfoldStruct(pp, s, fd + 1, td, v');
    var a, b, c := pp.StyleTypeName(s.typeName), pp.StylePunctuation(" {"), [Newline];
    var d := pp.RenderFields(s, 0, fd + 1, td, v').pieces;
    var e, f := [Lit(Spaces(fd * pp.indentSize))], pp.StylePunctuation("}");
    StyledKeepsText(pp, [Bold], s.typeName);
    StyledKeepsText(pp, [Dim], " {");
    StyledKeepsText(pp, [Dim], "}");
    StripLit("\n");
    StripLit(Spaces(fd * pp.indentSize));
    StripConcat(a + b + c + d + e, f);
    StripConcat(a + b + c + d, e);
    StripConcat(a + b + c, d);
    StripConcat(a + b, c);
    StripConcat(a, b);
    FiveParts(Lit(s.typeName), Lit(" {"), Newline, Strip(d), Lit(Spaces(fd * pp.indentSize)), Lit("}"));
  }

  /** Regrouping the pieces of a layout: three single pieces, a run, and two single pieces. */
  lemma FiveParts(a: Piece, b: Piece, c: Piece, d: seq<Piece>, e: Piece, f: Piece)
    ensures [a] + [b] + [c] + d + [e] + [f] == [a, b, c] + d + [e, f]
  {
  }

  /** A list opens with its type name and ` [` and a newline, writes its item lines at the next level,
      and closes with `]` indented one level deeper than a struct at the same depth would; an empty
      list still takes two lines. */
  lemma ListLayout(pp: PrettyPrinter, l: Peek, fd: nat, td: nat, v: map<nat, nat>)
    requires l.List?
    requires !(pp.maxDepth.Some? && fd > pp.maxDepth.value) && !(l.addr in v && td > v[l.addr] + 1)
    ensures var v' := if l.addr in v then v else v[l.addr := td];
      Strip(pp.Render(l, fd, td, v).pieces)
        == [Lit(l.typeName), Lit(" ["), Newline] + Strip(pp.RenderItems(l, 0, fd + 1, td, v').pieces)
           + [Lit(Spaces((fd + 1) * pp.indentSize)), Lit("]")]
  {
    UnfoldRender(pp, l, fd, td, v);
    var v' := if l.addr in v then v else v[l.addr := td];
    UnfoldDispatch(pp, l, fd, td, v');
    UnfoldList(pp, l, fd + 1, td, v');
    var a, b, c := pp.StyleTypeName(l.typeName), pp.StylePunctuation(" ["), [Newline];
    var d := pp.RenderItems(l, 0, fd + 1, td, v').pieces;
    var e, f := [Lit(Spaces((fd + 1) * pp.indentSize))], pp.StylePunctuation("]");
    StyledKeepsText(pp, [Bold], l.typeName);
    StyledKeepsText(pp, [Dim], " [");
    StyledKeepsText(pp, [Dim], "]");
    StripLit("\n");
    StripLit(Spaces((fd + 1) * pp.indentSize));
    StripConcat(a + b + c + d + e, f);
    StripConcat(a + b + c + d, e);
    StripConcat(a + b + c, d);
    StripConcat(a + b, c);
    StripConcat(a, b);
    FiveParts(Lit(l.typeName), Lit(" ["), Newline, Strip(d), Lit(Spaces((fd + 1) * pp.indentSize)), Lit("]"));
  }

  /** An empty list still takes two lines. */
  lemma EmptyListRendering(pp: PrettyPrinter, l: Peek, fd: nat, td: nat, v: map<nat, nat>)
    requires l.List? && |l.items| == 0
    requires !(pp.maxDepth.Some? && fd > pp.maxDepth.value) && !(l.addr in v && td > v[l.addr] + 1)
    ensures Text(pp.Render(l, fd, td, v).pieces) == l.typeName + " [\n" + Spaces((fd + 1) * pp.indentSize) + "]"
  {
    ListLayout(pp, l, fd, td, v);
    var v' := if l.addr in v then v else v[l.addr := td];
    UnfoldItems(pp, l, 0, fd + 1, td, v');
    var w := Spaces((fd + 1) * pp.indentSize);
    assert Strip([]) == [];
    assert [Lit(l.typeName), Lit(" ["), Newline] + [] + [Lit(w), Lit("]")]
        == [Lit(l.typeName), Lit(" ["), Newline, Lit(w), Lit("]")];
    TextOfFive(l.typeName, " [", "\n", w, "]");
  }

  lemma TextOfThree(a: string, b: string, c: string)
    ensures Text([Lit(a), Lit(b), Lit(c)]) == a + b + c
  {
    var r := [Lit(a), Lit(b), Lit(c)];
    assert r[1..][1..][1..] == [];
    assert Text(r[1..][1..]) == c;
    assert Text(r[1..]) == b + c;
  }

  lemma TextOfFive(a: string, b: string, c: string, d: string, e: string)
    ensures Text([Lit(a), Lit(b), Lit(c), Lit(d), Lit(e)]) == a + b + c + d + e
  {
    var r := [Lit(a), Lit(b), Lit(c), Lit(d), Lit(e)];
    assert r[1..][1..][1..][1..][1..] == [];
    assert Text(r[1..][1..][1..][1..]) == e;
    assert Text(r[1..][1..][1..]) == d + e;
    assert Text(r[1..][1..]) == c + (d + e);
    assert Text(r[1..]) == b + (c + (d + e));
  }

  /** A field line: the indentation of the next level, the name and `: `, the value or `[REDACTED]`,
      then `,` and a newline, the last field included. */
  lemma FieldLayout(pp: PrettyPrinter, field: Field, fd: nat, td: nat, v: map<nat, nat>)
    ensures Strip(pp.RenderField(field, fd, td, v).pieces)
      == [Lit(Spaces((fd + 1) * pp.indentSize)), Lit(field.name), Lit(": ")]
         + (if field.sensitive then [Lit("[REDACTED]")] else Strip(pp.Render(field.value, fd + 1, td + 1, v).pieces))
         + [Lit(","), Newline]
  {
    UnfoldField(pp, field, fd, td, v);
    var a, b := [Lit(Spaces((fd + 1) * pp.indentSize))], pp.StyleFieldName(field.name);
    var c := pp.StylePunctuation(": ");
    var value := if field.sensitive then Rendered(pp.StyleRedacted("[REDACTED]"), v)
                 else pp.Render(field.value, fd + 1, td + 1, v);
    var d, e, f := value.pieces, pp.StylePunctuation(","), [Newline];
    StyledKeepsText(pp, [Rgb(224, 49, 49), Bold], "[REDACTED]");
    StyledKeepsText(pp, [Rgb(114, 160, 193)], field.name);
    StyledKeepsText(pp, [Dim], ": ");
    StyledKeepsText(pp, [Dim], ",");
    StripLit(Spaces((fd + 1) * pp.indentSize));
    StripLit("\n");
    StripConcat(a + b + c + d + e, f);
    StripConcat(a + b + c + d, e);
    StripConcat(a + b + c, d);
    StripConcat(a + b, c);
    StripConcat(a, b);
    FiveParts(Lit(Spaces((fd + 1) * pp.indentSize)), Lit(field.name), Lit(": "), Strip(d), Lit(","), Newline);
  }

  /** An item line: the indentation of the next level, the item, `,` unless it is the last, and a
      newline. */
  lemma ItemLayout(pp: PrettyPrinter, item: Peek, comma: bool, fd: nat, td: nat, v: map<nat, nat>)
    ensures Strip(pp.RenderItem(item, comma, fd, td, v).pieces)
      == [Lit(Spaces((fd + 1) * pp.indentSize))] + Strip(pp.Render(item, fd + 1, td + 1, v).pieces)
         + (if comma then [Lit(",")] else []) + [Newline]
  {
    UnfoldItem(pp, item, comma, fd, td, v);
    var a := [Lit(Spaces((fd + 1) * pp.indentSize))];
    var b := pp.Render(item, fd + 1, td + 1, v).pieces;
    var c, d := (if comma then pp.StylePunctuation(",") else []), [Newline];
    StyledKeepsText(pp, [Dim], ",");
    StripLit(Spaces((fd + 1) * pp.indentSize));
    StripLit("\n");
    assert Strip([]) == [];
    StripConcat(a + b + c, d);
    StripConcat(a + b, c);
    StripConcat(a, b);
  }

  /** The fields of a struct with a single field are that field's line. */
  lemma SingleFieldLines(pp: PrettyPrinter, s: Peek, fd: nat, td: nat, v: map<nat, nat>)
    requires s.Struct? && |s.fields| == 1
    ensures Strip(pp.RenderFields(s, 0, fd, td, v).pieces) == Strip(pp.RenderField(s.fields[0], fd, td, v).pieces)
  {
    UnfoldFields(pp, s, 0, fd, td, v);
    var line := pp.RenderField(s.fields[0], fd, td, v);
    UnfoldFields(pp, s, 1, fd, td, line.visited);
    assert line.pieces + [] == line.pieces;
  }

  /** The type depth grows only by one per field or item, never at a struct or list that shares its
      address with its parent, so a chain of wrappers that all sit at one address (an outer struct
      whose only field, at offset 0, is an inner struct whose only field is a scalar) is reported as a
      cycle at its third level, although it holds none: the scalar is written as a cycle marker. */
  lemma SameAddressChainReadsAsCycle(pp: PrettyPrinter, outer: Peek, inner: Peek, leaf: Peek)
    requires pp.maxDepth == None
    requires outer.Struct? && |outer.fields| == 1 && !outer.fields[0].sensitive && outer.fields[0].value == inner
    requires inner.Struct? && |inner.fields| == 1 && !inner.fields[0].sensitive && inner.fields[0].value == leaf
    requires leaf.Value? && inner.addr == outer.addr && leaf.addr == outer.addr
    ensures
      var w := pp.indentSize;
      Strip(pp.Render(outer, 0, 0, map[]).pieces)
        == [Lit(outer.typeName), Lit(" {"), Newline]
           + ([Lit(Spaces(2 * w)), Lit(outer.fields[0].name), Lit(": ")]
              + ([Lit(inner.typeName), Lit(" {"), Newline]
                 + ([Lit(Spaces(4 * w)), Lit(inner.fields[0].name), Lit(": ")]
                    + [Lit(leaf.typeName), Lit(" { "), Lit(CycleComment(outer.addr, 0)), Lit(" }")]
                    + [Lit(","), Newline])
                 + [Lit(Spaces(2 * w)), Lit("}")])
              + [Lit(","), Newline])
           + [Lit(Spaces(0)), Lit("}")]
  {
    var w, a := pp.indentSize, outer.addr;
    var m := map[a := 0];
    assert map[][a := 0] == m;
    CycleIsCutOff(pp, leaf, 4, 2, m);
    var leafOut := [Lit(leaf.typeName), Lit(" { "), Lit(CycleComment(a, 0)), Lit(" }")];
    WrapperLayout(pp, inner, 2, 1, m, leafOut);
    assert (2 + 2) * w == 4 * w && 2 * w == 2 * w;
    var innerOut := [Lit(inner.typeName), Lit(" {"), Newline]
      + ([Lit(Spaces(4 * w)), Lit(inner.fields[0].name), Lit(": ")] + leafOut + [Lit(","), Newline])
      + [Lit(Spaces(2 * w)), Lit("}")];
    WrapperLayout(pp, outer, 0, 0, map[], innerOut);
  }

  /** A struct whose only field is not sensitive, written around the stripped output `x` of its field's
      value. */
  lemma WrapperLayout(pp: PrettyPrinter, s: Peek, fd: nat, td: nat, v: map<nat, nat>, x: seq<Piece>)
    requires s.Struct? && |s.fields| == 1 && !s.fields[0].sensitive
    requires !(pp.maxDepth.Some? && fd > pp.maxDepth.value) && !(s.addr in v && td > v[s.addr] + 1)
    requires Strip(pp.Render(s.fields[0].value, fd + 2, td + 1, if s.addr in v then v else v[s.addr := td]).pieces) == x
    ensures Strip(pp.Render(s, fd, td, v).pieces)
      == [Lit(s.typeName), Lit(" {"), Newline]
         + ([Lit(Spaces((fd + 2) * pp.indentSize)), Lit(s.fields[0].name), Lit(": ")] + x + [Lit(","), Newline])
         + [Lit(Spaces(fd * pp.indentSize)), Lit("}")]
  {
    var v' := if s.addr in v then v else v[s.addr := td];
    FieldLayout(pp, s.fields[0], fd + 1, td, v');
    SingleFieldLines(pp, s, fd + 1, td, v');
    StructLayout(pp, s, fd, td, v);
  }
}
