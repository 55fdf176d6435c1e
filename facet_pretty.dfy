/** The pretty printer of facet-pretty: a configurable renderer that walks a `Peek` tree and writes
    styled, indented text, cutting the walk short at a maximum depth and at reference cycles.

    The output is modelled as a sequence of pieces: literal text, and the style commands the printer
    interleaves with it (bold, dim, a 24-bit foreground colour, a generated foreground colour, reset).
    The text a reader sees is the concatenation of the literal pieces. */
module FacetPretty {
  import opened Wrappers
  import opened FacetPeek
  import opened Numerals

  // ---------------------------------------------------------------------------------------------
  // Output pieces
  // ---------------------------------------------------------------------------------------------

  /** One write to the sink: literal text, or an ANSI style command. `Foreground` is the colour the
      colour generator derives from a scalar's shape. */
  datatype Piece =
    | Lit(text: string)
    | Bold
    | Dim
    | Rgb(red: nat, green: nat, blue: nat)
    | Foreground
    | Reset

  /** The text of a run of pieces: its literal parts, concatenated. */
  function Text(ps: seq<Piece>): string
  {
    if |ps| == 0 then "" else (if ps[0].Lit? then ps[0].text else "") + Text(ps[1..])
  }

  /** A run of pieces without any style command. */
  predicate Plain(ps: seq<Piece>)
  {
    forall i :: 0 <= i < |ps| ==> ps[i].Lit?
  }

  /** The literal pieces of a run, in order: what remains once the style commands are dropped. */
  function Strip(ps: seq<Piece>): (r: seq<Piece>)
    ensures Plain(r)
    ensures Text(r) == Text(ps)
  {
    if |ps| == 0 then [] else
      var rest := Strip(ps[1..]);
      if ps[0].Lit? then [ps[0]] + rest else rest
  }

  /** How many pieces of a run are the literal `t`. */
  function CountLit(ps: seq<Piece>, t: string): nat
  {
    if |ps| == 0 then 0 else (if ps[0] == Lit(t) then 1 else 0) + CountLit(ps[1..], t)
  }

  lemma {:induction false} TextConcat(a: seq<Piece>, b: seq<Piece>)
    ensures Text(a + b) == Text(a) + Text(b)
  {
    if |a| > 0 {
      assert (a + b)[1..] == a[1..] + b;
      TextConcat(a[1..], b);
    } else {
      assert a + b == b;
    }
  }

  lemma {:induction false} StripConcat(a: seq<Piece>, b: seq<Piece>)
    ensures Strip(a + b) == Strip(a) + Strip(b)
  {
    if |a| > 0 {
      assert (a + b)[1..] == a[1..] + b;
      StripConcat(a[1..], b);
    } else {
      assert a + b == b;
    }
  }

  lemma {:induction false} CountLitConcat(a: seq<Piece>, b: seq<Piece>, t: string)
    ensures CountLit(a + b, t) == CountLit(a, t) + CountLit(b, t)
  {
    if |a| > 0 {
      assert (a + b)[1..] == a[1..] + b;
      CountLitConcat(a[1..], b, t);
    } else {
      assert a + b == b;
    }
  }

  /** A plain run is left as it is by `Strip`. */
  lemma {:induction false} StripPlain(ps: seq<Piece>)
    requires Plain(ps)
    ensures Strip(ps) == ps
  {
    if |ps| > 0 {
      StripPlain(ps[1..]);
    }
  }

  /** `w` spaces: what `{:width$}` makes of an empty string. */
  function Spaces(w: nat): (s: string)
    ensures |s| == w
    ensures forall i :: 0 <= i < w ==> s[i] == ' '
  {
    seq(w, _ => ' ')
  }

  const Newline: Piece := Lit("\n")

  // ---------------------------------------------------------------------------------------------
  // The cycle comment
  // ---------------------------------------------------------------------------------------------

  /** The comment written where a cycle is cut off: the address as `{:p}` prints it, and the type
      depth at which it was first seen. */
  function CycleComment(addr: nat, firstSeen: nat): string
  {
    "/* cycle detected at 0x" + Digits(addr, 16) + " (first seen at type_depth " + Digits(firstSeen, 10) + ") */"
  }

  // ---------------------------------------------------------------------------------------------
  // Configuration
  // ---------------------------------------------------------------------------------------------

  /** The colour generator's configuration; how it turns a hash into a colour is not modelled. */
  datatype ColorGenerator = DefaultColorGenerator | CustomColorGenerator(id: nat)

  /** What one call of the traversal produces: the pieces it wrote, and the visited map it leaves. */
  datatype Rendered = Rendered(pieces: seq<Piece>, visited: map<nat, nat>)

  /** The type depth passed to a struct or list: unchanged when the handle inside the variant points
      at the same address as the peek, one deeper otherwise. */
  function NextTypeDepth(inner: nat, outer: nat, typeDepth: nat): nat
  {
    if inner == outer then typeDepth else typeDepth + 1
  }

  datatype PrettyPrinter = PrettyPrinter(
    indentSize: nat,
    maxDepth: Option<nat>,
    colorGenerator: ColorGenerator,
    useColors: bool)
  {
    /** `PrettyPrinter::default()`. */
    static function Default(): (p: PrettyPrinter)
      ensures p.indentSize == 2 && p.maxDepth == None && p.useColors
      ensures p.colorGenerator == DefaultColorGenerator
    {
      PrettyPrinter(2, None, DefaultColorGenerator, true)
    }

    /** `PrettyPrinter::new()`: the default settings. */
    static function New(): (p: PrettyPrinter)
      ensures p.indentSize == 2 && p.maxDepth == None && p.useColors
      ensures p.colorGenerator == DefaultColorGenerator
    {
      Default()
    }

    /** `with_indent_size`: sets the indentation step and nothing else. */
    function WithIndentSize(size: nat): (r: PrettyPrinter)
      ensures r.indentSize == size
      ensures r.maxDepth == maxDepth && r.colorGenerator == colorGenerator && r.useColors == useColors
    {
      this.(indentSize := size)
    }

    /** `with_max_depth`: sets the depth limit and nothing else. */
    function WithMaxDepth(depth: nat): (r: PrettyPrinter)
      ensures r.maxDepth == Some(depth)
      ensures r.indentSize == indentSize && r.colorGenerator == colorGenerator && r.useColors == useColors
    {
      this.(maxDepth := Some(depth))
    }

    /** `with_color_generator`: sets the colour generator and nothing else. */
    function WithColorGenerator(generator: ColorGenerator): (r: PrettyPrinter)
      ensures r.colorGenerator == generator
      ensures r.indentSize == indentSize && r.maxDepth == maxDepth && r.useColors == useColors
    {
      this.(colorGenerator := generator)
    }

    /** `with_colors`: switches styling on or off and changes nothing else. */
    function WithColors(on: bool): (r: PrettyPrinter)
      ensures r.useColors == on
      ensures r.indentSize == indentSize && r.maxDepth == maxDepth && r.colorGenerator == colorGenerator
    {
      this.(useColors := on)
    }

    // -------------------------------------------------------------------------------------------
    // Styled writes
    // -------------------------------------------------------------------------------------------

    /** `text` between the style commands `prefix` and a reset, when colours are on. */
    function Styled(prefix: seq<Piece>, text: string): seq<Piece>
    {
      if useColors then prefix + [Lit(text), Reset] else [Lit(text)]
    }

    /** `write_type_name`: the type name, bold when colours are on. */
    function StyleTypeName(name: string): seq<Piece>
    {
      Styled([Bold], name)
    }

    /** `write_field_name`: the field name, in the colour (114, 160, 193) when colours are on. */
    function StyleFieldName(name: string): seq<Piece>
    {
      Styled([Rgb(114, 160, 193)], name)
    }

    /** `write_punctuation` and `style_punctuation`: dim when colours are on. */
    function StylePunctuation(text: string): seq<Piece>
    {
      Styled([Dim], text)
    }

    /** `write_comment` and `style_comment`: dim when colours are on. */
    function StyleComment(text: string): seq<Piece>
    {
      Styled([Dim], text)
    }

    /** `write_redacted`: bright red and bold when colours are on. */
    function StyleRedacted(text: string): seq<Piece>
    {
      Styled([Rgb(224, 49, 49), Bold], text)
    }

    // -------------------------------------------------------------------------------------------
    // The traversal, as functions
    // -------------------------------------------------------------------------------------------

    /** What the traversal writes once `format_depth` exceeds the limit. */
    function Truncated(): seq<Piece>
    {
      StylePunctuation("[") + [Lit("...")]
    }

    /** What the traversal writes where it cuts off a cycle at `p`, first seen at `firstSeen`. */
    function CycleMarker(p: Peek, firstSeen: nat): seq<Piece>
    {
      StyleTypeName(p.typeName) + StylePunctuation(" { ") + StyleComment(CycleComment(p.addr, firstSeen))
        + StylePunctuation(" }")
    }

    /** `format_peek_internal`: the depth limit first, then the cycle check against the type depth at
        which the address was first seen, recording the address if it is new, then the variant. */
    function Render(p: Peek, fd: nat, td: nat, visited: map<nat, nat>): Rendered
      decreases p, 3, 0
    {
      if maxDepth.Some? && fd > maxDepth.value then
        Rendered(Truncated(), visited)
      else if p.addr in visited && td > visited[p.addr] + 1 then
        Rendered(CycleMarker(p, visited[p.addr]), visited)
      else
        Dispatch(p, fd, td, if p.addr in visited then visited else visited[p.addr := td])
    }

    /** The `match` on the peek's variant in `format_peek_internal`. Every variant's inner handle has
        the peek's own data pointer, so the type-depth comparison always finds the same address. */
    function Dispatch(p: Peek, fd: nat, td: nat, visited: map<nat, nat>): Rendered
      decreases p, 2, 0
    {
      match p
      case Value(_, _, _, _) => Rendered(ValuePieces(p), visited)
      case Struct(_, _, _) => RenderStruct(p, fd + 1, NextTypeDepth(p.addr, p.addr, td), visited)
      case List(_, _, _) => RenderList(p, fd + 1, NextTypeDepth(p.addr, p.addr, td), visited)
      case Map(_, _) => Rendered(MapPieces(p, fd + 1), visited)
    }

    /** What `format_value` prints: the `Display` output, else the `Debug` output, else the type name
        followed by `(⋯)`. */
    function ScalarText(p: Peek): string
      requires p.Value?
    {
      match p.display
      case Some(s) => s
      case None =>
        match p.debug
        case Some(s) => s
        case None => p.typeName + "(\U{22EF})"
    }

    /** `format_value`: the scalar's text, in its generated colour when colours are on. */
    function ValuePieces(p: Peek): seq<Piece>
      requires p.Value?
    {
      if useColors then [Foreground, Lit(ScalarText(p)), Reset] else [Lit(ScalarText(p))]
    }

    /** `format_struct`: the type name and ` {`, then ` }` at once for a struct without fields, or
        one line per field and the closing brace indented to the enclosing level. */
    function RenderStruct(s: Peek, fd: nat, td: nat, visited: map<nat, nat>): Rendered
      requires s.Struct? && fd >= 1
      decreases s, 1, 0
    {
      var header := StyleTypeName(s.typeName) + StylePunctuation(" {");
      if |s.fields| == 0 then
        Rendered(header + StylePunctuation(" }"), visited)
      else
        var body := RenderFields(s, 0, fd, td, visited);
        Rendered(header + [Newline] + body.pieces + [Lit(Spaces((fd - 1) * indentSize))] + StylePunctuation("}"),
                 body.visited)
    }

    /** The lines for fields `i..` of a struct, one after the other. */
    function RenderFields(s: Peek, i: nat, fd: nat, td: nat, visited: map<nat, nat>): Rendered
      requires s.Struct? && i <= |s.fields|
      decreases s, 0, |s.fields| - i
    {
      if i == |s.fields| then Rendered([], visited) else
        var line := RenderField(s.fields[i], fd, td, visited);
        var rest := RenderFields(s, i + 1, fd, td, line.visited);
        Rendered(line.pieces + rest.pieces, rest.visited)
    }

    /** One field line: indent, name, `: `, the value (or `[REDACTED]` for a sensitive field, whose
        value is not visited), `,` and a newline. */
    function RenderField(field: Field, fd: nat, td: nat, visited: map<nat, nat>): Rendered
      decreases field, 0, 0
    {
      var value := if field.sensitive then Rendered(StyleRedacted("[REDACTED]"), visited)
                   else Render(field.value, fd + 1, td + 1, visited);
      Rendered(FieldHead(field, fd) + value.pieces + StylePunctuation(",") + [Newline], value.visited)
    }

    /** The start of a field line: indent, field name and `: `. */
    function FieldHead(field: Field, fd: nat): seq<Piece>
    {
      [Lit(Spaces((fd + 1) * indentSize))] + StyleFieldName(field.name) + StylePunctuation(": ")
    }

    /** `format_list`: the type name and ` [`, one line per item, and the closing bracket indented to
        the list's own level. */
    function RenderList(l: Peek, fd: nat, td: nat, visited: map<nat, nat>): Rendered
      requires l.List?
      decreases l, 1, 0
    {
      var body := RenderItems(l, 0, fd, td, visited);
      Rendered(StyleTypeName(l.typeName) + StylePunctuation(" [") + [Newline] + body.pieces
                 + [Lit(Spaces(fd * indentSize))] + StylePunctuation("]"),
               body.visited)
    }

    /** The lines for items `i..` of a list, one after the other; every item but the last is followed
        by a comma. */
    function RenderItems(l: Peek, i: nat, fd: nat, td: nat, visited: map<nat, nat>): Rendered
      requires l.List? && i <= |l.items|
      decreases l, 0, |l.items| - i
    {
      if i == |l.items| then Rendered([], visited) else
        var line := RenderItem(l.items[i], i < |l.items| - 1, fd, td, visited);
        var rest := RenderItems(l, i + 1, fd, td, line.visited);
        Rendered(line.pieces + rest.pieces, rest.visited)
    }

    /** One item line: indent, the item, `,` when `comma`, and a newline. */
    function RenderItem(item: Peek, comma: bool, fd: nat, td: nat, visited: map<nat, nat>): Rendered
      decreases item, 4, 0
    {
      var value := Render(item, fd + 1, td + 1, visited);
      Rendered([Lit(Spaces((fd + 1) * indentSize))] + value.pieces + (if comma then StylePunctuation(",") else [])
                 + [Newline],
               value.visited)
    }

    /** `format_map`: the type name, ` {`, a placeholder comment on its own indented line, and the
        closing brace; the entries are not visited. */
    function MapPieces(m: Peek, fd: nat): seq<Piece>
      requires m.Map?
    {
      StyleTypeName(m.typeName) + StylePunctuation(" {") + [Newline]
        + [Lit(Spaces((fd + 1) * indentSize))] + StyleComment("/* Map contents */") + [Newline]
        + [Lit(Spaces(fd * indentSize))] + StylePunctuation("}")
    }

    // -------------------------------------------------------------------------------------------
    // The traversal, as the source performs it: writes to a sink, updates to a visited map
    // -------------------------------------------------------------------------------------------

    /** `format_peek_internal`. */
    method FormatPeekInternal(p: Peek, f: Sink, fd: nat, td: nat, visited: VisitedMap)
      modifies f, visited
      ensures f.pieces == old(f.pieces) + Render(p, fd, td, old(visited.seen)).pieces
      ensures visited.seen == Render(p, fd, td, old(visited.seen)).visited
      decreases p, 3, 0
    {
      UnfoldRender(this, p, fd, td, visited.seen);
      if maxDepth.Some? && fd > maxDepth.value {
        WriteTruncated(f);
        return;
      }
      var ptr := p.addr;
      if ptr in visited.seen {
        var firstSeen := visited.seen[ptr];
        if td > firstSeen + 1 {
          WriteCycleMarker(p, firstSeen, f);
          return;
        }
      } else {
        visited.Insert(ptr, td);
      }
      match p
      case Value(_, _, _, _) =>
        FormatValue(p, f);
      case Struct(_, _, _) =>
        FormatStruct(p, f, fd + 1, NextTypeDepth(p.addr, ptr, td), visited);
      case List(_, _, _) =>
        FormatList(p, f, fd + 1, NextTypeDepth(p.addr, ptr, td), visited);
      case Map(_, _) =>
        FormatMap(p, f, fd + 1);
    }

    /** The depth-limit branch of `format_peek_internal`. */
    method WriteTruncated(f: Sink)
      modifies f
      ensures f.pieces == old(f.pieces) + Truncated()
    {
      ghost var o := f.pieces;
      f.Write(StylePunctuation("["));
      f.Write([Lit("...")]);
      AppendAssoc(o, StylePunctuation("["), [Lit("...")]);
    }

    /** The cycle branch of `format_peek_internal`. */
    method WriteCycleMarker(p: Peek, firstSeen: nat, f: Sink)
      modifies f
      ensures f.pieces == old(f.pieces) + CycleMarker(p, firstSeen)
    {
      ghost var o := f.pieces;
      var name, open, comment, close :=
        StyleTypeName(p.typeName), StylePunctuation(" { "), StyleComment(CycleComment(p.addr, firstSeen)),
        StylePunctuation(" }");
      f.Write(name);
      f.Write(open);
      AppendAssoc(o, name, open);
      f.Write(comment);
      AppendAssoc(o, name + open, comment);
      f.Write(close);
      AppendAssoc(o, name + open + comment, close);
    }

    /** `format_value`. */
    method FormatValue(p: Peek, f: Sink)
      requires p.Value?
      modifies f
      ensures f.pieces == old(f.pieces) + ValuePieces(p)
    {
      if useColors {
        f.Write([Foreground]);
      }
      f.Write([Lit(ScalarText(p))]);
      if useColors {
        f.Write([Reset]);
      }
    }

    /** `format_struct`. */
    method FormatStruct(s: Peek, f: Sink, fd: nat, td: nat, visited: VisitedMap)
      requires s.Struct? && fd >= 1
      modifies f, visited
      ensures f.pieces == old(f.pieces) + RenderStruct(s, fd, td, old(visited.seen)).pieces
      ensures visited.seen == RenderStruct(s, fd, td, old(visited.seen)).visited
      decreases s, 1, 0
    {
      ghost var o := f.pieces;
      var name, open := StyleTypeName(s.typeName), StylePunctuation(" {");
      f.Write(name);
      f.Write(open);
      AppendAssoc(o, name, open);
      if |s.fields| == 0 {
        f.Write(StylePunctuation(" }"));
        AppendAssoc(o, name + open, StylePunctuation(" }"));
        return;
      }
      f.Write([Newline]);
      AppendAssoc(o, name + open, [Newline]);
      ghost var header := name + open + [Newline];
      ghost var all := RenderFields(s, 0, fd, td, visited.seen);
      AppendAssoc(o, header, all.pieces);
      var i := 0;
      while i < |s.fields|
        invariant i <= |s.fields|
        invariant o + (header + all.pieces) == f.pieces + RenderFields(s, i, fd, td, visited.seen).pieces
        invariant all.visited == RenderFields(s, i, fd, td, visited.seen).visited
      {
        ghost var line := RenderField(s.fields[i], fd, td, visited.seen);
        AppendAssoc(f.pieces, line.pieces, RenderFields(s, i + 1, fd, td, line.visited).pieces);
        FormatField(s.fields[i], f, fd, td, visited);
        i := i + 1;
      }
      assert f.pieces == o + (header + all.pieces) by {
        assert RenderFields(s, i, fd, td, visited.seen).pieces == [];
      }
      var indent, close := [Lit(Spaces((fd - 1) * indentSize))], StylePunctuation("}");
      f.Write(indent);
      AppendAssoc(o, header + all.pieces, indent);
      f.Write(close);
      AppendAssoc(o, header + all.pieces + indent, close);
    }

    /** The body of the field loop in `format_struct`. */
    method FormatField(field: Field, f: Sink, fd: nat, td: nat, visited: VisitedMap)
      modifies f, visited
      ensures f.pieces == old(f.pieces) + RenderField(field, fd, td, old(visited.seen)).pieces
      ensures visited.seen == RenderField(field, fd, td, old(visited.seen)).visited
      decreases field, 0, 0
    {
      ghost var o := f.pieces;
      UnfoldField(this, field, fd, td, visited.seen);
      ghost var value := if field.sensitive then Rendered(StyleRedacted("[REDACTED]"), visited.seen)
                         else Render(field.value, fd + 1, td + 1, visited.seen);
      var indent, name, colon := [Lit(Spaces((fd + 1) * indentSize))], StyleFieldName(field.name), StylePunctuation(": ");
      f.Write(indent);
      f.Write(name);
      AppendAssoc(o, indent, name);
      f.Write(colon);
      AppendAssoc(o, indent + name, colon);
      ghost var head := indent + name + colon;
      AppendAssoc(o, head, value.pieces);
      if field.sensitive {
        f.Write(StyleRedacted("[REDACTED]"));
      } else {
        FormatPeekInternal(field.value, f, fd + 1, td + 1, visited);
      }
      var comma := StylePunctuation(",");
      f.Write(comma);
      AppendAssoc(o, head + value.pieces, comma);
      f.Write([Newline]);
      AppendAssoc(o, head + value.pieces + comma, [Newline]);
    }

    /** `format_list`. */
    method FormatList(l: Peek, f: Sink, fd: nat, td: nat, visited: VisitedMap)
      requires l.List?
      modifies f, visited
      ensures f.pieces == old(f.pieces) + RenderList(l, fd, td, old(visited.seen)).pieces
      ensures visited.seen == RenderList(l, fd, td, old(visited.seen)).visited
      decreases l, 1, 0
    {
      ghost var o := f.pieces;
      var name, open := StyleTypeName(l.typeName), StylePunctuation(" [");
      f.Write(name);
      f.Write(open);
      AppendAssoc(o, name, open);
      f.Write([Newline]);
      AppendAssoc(o, name + open, [Newline]);
      ghost var header := name + open + [Newline];
      ghost var all := RenderItems(l, 0, fd, td, visited.seen);
      UnfoldList(this, l, fd, td, visited.seen);
      AppendAssoc(o, header, all.pieces);
      var i := 0;
      while i < |l.items|
        invariant i <= |l.items|
        invariant o + (header + all.pieces) == f.pieces + RenderItems(l, i, fd, td, visited.seen).pieces
        invariant all.visited == RenderItems(l, i, fd, td, visited.seen).visited
      {
        ghost var line := RenderItem(l.items[i], i < |l.items| - 1, fd, td, visited.seen);
        AppendAssoc(f.pieces, line.pieces, RenderItems(l, i + 1, fd, td, line.visited).pieces);
        FormatItem(l.items[i], i < |l.items| - 1, f, fd, td, visited);
        i := i + 1;
      }
      assert f.pieces == o + (header + all.pieces) by {
        assert RenderItems(l, i, fd, td, visited.seen).pieces == [];
      }
      var indent, close := [Lit(Spaces(fd * indentSize))], StylePunctuation("]");
      f.Write(indent);
      AppendAssoc(o, header + all.pieces, indent);
      f.Write(close);
      AppendAssoc(o, header + all.pieces + indent, close);
    }

    /** The body of the item loop in `format_list`; `comma` is whether the item is not the last. */
    method FormatItem(item: Peek, comma: bool, f: Sink, fd: nat, td: nat, visited: VisitedMap)
      modifies f, visited
      ensures f.pieces == old(f.pieces) + RenderItem(item, comma, fd, td, old(visited.seen)).pieces
      ensures visited.seen == RenderItem(item, comma, fd, td, old(visited.seen)).visited
      decreases item, 4, 0
    {
      ghost var o := f.pieces;
      UnfoldItem(this, item, comma, fd, td, visited.seen);
      ghost var value := Render(item, fd + 1, td + 1, visited.seen);
      var indent := [Lit(Spaces((fd + 1) * indentSize))];
      f.Write(indent);
      AppendAssoc(o, indent, value.pieces);
      FormatPeekInternal(item, f, fd + 1, td + 1, visited);
      var separator := if comma then StylePunctuation(",") else [];
      if comma {
        f.Write(separator);
      } else {
        assert f.pieces + separator == f.pieces;
      }
      AppendAssoc(o, indent + value.pieces, separator);
      f.Write([Newline]);
      AppendAssoc(o, indent + value.pieces + separator, [Newline]);
    }

    /** `format_map`; it neither reads nor changes the visited map. */
    method FormatMap(m: Peek, f: Sink, fd: nat)
      requires m.Map?
      modifies f
      ensures f.pieces == old(f.pieces) + MapPieces(m, fd)
    {
      ghost var o := f.pieces;
      var name, open := StyleTypeName(m.typeName), StylePunctuation(" {");
      var indent, comment := [Lit(Spaces((fd + 1) * indentSize))], StyleComment("/* Map contents */");
      var outdent, close := [Lit(Spaces(fd * indentSize))], StylePunctuation("}");
      f.Write(name);
      f.Write(open);
      AppendAssoc(o, name, open);
      f.Write([Newline]);
      AppendAssoc(o, name + open, [Newline]);
      f.Write(indent);
      AppendAssoc(o, name + open + [Newline], indent);
      f.Write(comment);
      AppendAssoc(o, name + open + [Newline] + indent, comment);
      f.Write([Newline]);
      AppendAssoc(o, name + open + [Newline] + indent + comment, [Newline]);
      f.Write(outdent);
      AppendAssoc(o, name + open + [Newline] + indent + comment + [Newline], outdent);
      f.Write(close);
      AppendAssoc(o, name + open + [Newline] + indent + comment + [Newline] + outdent, close);
    }

    /** `format_peek`: the whole rendering of a peek, from depth zero with nothing visited. */
    method FormatPeek(p: Peek) returns (out: seq<Piece>)
      ensures out == Render(p, 0, 0, map[]).pieces
    {
      var f := new Sink();
      var visited := new VisitedMap();
      FormatPeekInternal(p, f, 0, 0, visited);
      out := f.pieces;
    }

    /** `format_to`: the same rendering, appended to an existing sink. */
    method FormatTo(p: Peek, f: Sink)
      modifies f
      ensures f.pieces == old(f.pieces) + Render(p, 0, 0, map[]).pieces
    {
      var visited := new VisitedMap();
      FormatPeekInternal(p, f, 0, 0, visited);
    }
  }

  // ---------------------------------------------------------------------------------------------
  // One-step unfoldings of the traversal functions, used by the traversal methods
  // ---------------------------------------------------------------------------------------------

  lemma UnfoldRender(pp: PrettyPrinter, p: Peek, fd: nat, td: nat, visited: map<nat, nat>)
    ensures pp.maxDepth.Some? && fd > pp.maxDepth.value ==>
      pp.Render(p, fd, td, visited) == Rendered(pp.Truncated(), visited)
    ensures !(pp.maxDepth.Some? && fd > pp.maxDepth.value) && p.addr in visited && td > visited[p.addr] + 1 ==>
      pp.Render(p, fd, td, visited) == Rendered(pp.CycleMarker(p, visited[p.addr]), visited)
    ensures !(pp.maxDepth.Some? && fd > pp.maxDepth.value) && !(p.addr in visited && td > visited[p.addr] + 1) ==>
      pp.Render(p, fd, td, visited)
        == pp.Dispatch(p, fd, td, if p.addr in visited then visited else visited[p.addr := td])
  {
  }

  lemma UnfoldStruct(pp: PrettyPrinter, s: Peek, fd: nat, td: nat, visited: map<nat, nat>)
    requires s.Struct? && fd >= 1 && |s.fields| > 0
    ensures pp.RenderStruct(s, fd, td, visited).pieces
      == pp.StyleTypeName(s.typeName) + pp.StylePunctuation(" {") + [Newline]
           + pp.RenderFields(s, 0, fd, td, visited).pieces
           + [Lit(Spaces((fd - 1) * pp.indentSize))] + pp.StylePunctuation("}")
    ensures pp.RenderStruct(s, fd, td, visited).visited == pp.RenderFields(s, 0, fd, td, visited).visited
  {
  }

  lemma UnfoldFields(pp: PrettyPrinter, s: Peek, i: nat, fd: nat, td: nat, visited: map<nat, nat>)
    requires s.Struct? && i <= |s.fields|
    ensures i == |s.fields| ==> pp.RenderFields(s, i, fd, td, visited) == Rendered([], visited)
    ensures i < |s.fields| ==>
      var line := pp.RenderField(s.fields[i], fd, td, visited);
      var rest := pp.RenderFields(s, i + 1, fd, td, line.visited);
      pp.RenderFields(s, i, fd, td, visited) == Rendered(line.pieces + rest.pieces, rest.visited)
  {
  }

  lemma UnfoldField(pp: PrettyPrinter, field: Field, fd: nat, td: nat, visited: map<nat, nat>)
    ensures
      var value := if field.sensitive then Rendered(pp.StyleRedacted("[REDACTED]"), visited)
                   else pp.Render(field.value, fd + 1, td + 1, visited);
      pp.RenderField(field, fd, td, visited)
        == Rendered([Lit(Spaces((fd + 1) * pp.indentSize))] + pp.StyleFieldName(field.name) + pp.StylePunctuation(": ")
                      + value.pieces + pp.StylePunctuation(",") + [Newline],
                    value.visited)
  {
  }

  lemma UnfoldList(pp: PrettyPrinter, l: Peek, fd: nat, td: nat, visited: map<nat, nat>)
    requires l.List?
    ensures pp.RenderList(l, fd, td, visited).pieces
      == pp.StyleTypeName(l.typeName) + pp.StylePunctuation(" [") + [Newline]
           + pp.RenderItems(l, 0, fd, td, visited).pieces
           + [Lit(Spaces(fd * pp.indentSize))] + pp.StylePunctuation("]")
    ensures pp.RenderList(l, fd, td, visited).visited == pp.RenderItems(l, 0, fd, td, visited).visited
  {
  }

  lemma UnfoldItems(pp: PrettyPrinter, l: Peek, i: nat, fd: nat, td: nat, visited: map<nat, nat>)
    requires l.List? && i <= |l.items|
    ensures i == |l.items| ==> pp.RenderItems(l, i, fd, td, visited) == Rendered([], visited)
    ensures i < |l.items| ==>
      var line := pp.RenderItem(l.items[i], i < |l.items| - 1, fd, td, visited);
      var rest := pp.RenderItems(l, i + 1, fd, td, line.visited);
      pp.RenderItems(l, i, fd, td, visited) == Rendered(line.pieces + rest.pieces, rest.visited)
  {
  }

  lemma UnfoldItem(pp: PrettyPrinter, item: Peek, comma: bool, fd: nat, td: nat, visited: map<nat, nat>)
    ensures
      var value := pp.Render(item, fd + 1, td + 1, visited);
      pp.RenderItem(item, comma, fd, td, visited)
        == Rendered([Lit(Spaces((fd + 1) * pp.indentSize))] + value.pieces
                      + (if comma then pp.StylePunctuation(",") else []) + [Newline],
                    value.visited)
  {
  }

  /** Appending `a` and then `b` appends `a + b`: how consecutive writes to the sink add up. */
  lemma AppendAssoc(o: seq<Piece>, a: seq<Piece>, b: seq<Piece>)
    ensures o + a + b == o + (a + b)
  {
  }

  /** A styled write carries exactly its text: the style commands around it add none, vanish when
      stripped, and are not written at all when colours are off. */
  lemma StyledKeepsText(pp: PrettyPrinter, prefix: seq<Piece>, text: string)
    requires forall i :: 0 <= i < |prefix| ==> !prefix[i].Lit?
    ensures Text(pp.Styled(prefix, text)) == text
    ensures Strip(pp.Styled(prefix, text)) == [Lit(text)]
    ensures !pp.useColors ==> pp.Styled(prefix, text) == [Lit(text)]
  {
    if pp.useColors {
      var tail := [Lit(text), Reset];
      StripConcat(prefix, tail);
      TextConcat(prefix, tail);
      StylesOnly(prefix);
      assert tail[1..] == [Reset] && [Reset][1..] == [];
      assert Strip([Reset]) == [];
      assert Strip(tail) == [Lit(text)] + Strip([Reset]);
    }
  }

  /** The prefix of a styled write holds style commands only, so it adds no text. */
  lemma {:induction false} StylesOnly(prefix: seq<Piece>)
    requires forall i :: 0 <= i < |prefix| ==> !prefix[i].Lit?
    ensures Strip(prefix) == [] && Text(prefix) == ""
  {
    if |prefix| > 0 {
      StylesOnly(prefix[1..]);
    }
  }

  // ---------------------------------------------------------------------------------------------
  // The mutable state of one traversal
  // ---------------------------------------------------------------------------------------------

  /** The `fmt::Write` sink the printer writes to. Writing never fails here. */
  class Sink {
    var pieces: seq<Piece>

    constructor ()
      ensures pieces == []
    {
      pieces := [];
    }

    method Write(ps: seq<Piece>)
      modifies this
      ensures pieces == old(pieces) + ps
    {
      pieces := pieces + ps;
    }
  }

  /** The map from data address to the type depth at which the traversal first reached it. */
  class VisitedMap {
    var seen: map<nat, nat>

    constructor ()
      ensures seen == map[]
    {
      seen := map[];
    }

    method Insert(addr: nat, depth: nat)
      modifies this
      ensures seen == old(seen)[addr := depth]
    {
      seen := seen[addr := depth];
    }
  }
}
