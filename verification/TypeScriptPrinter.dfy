/** Rendering a JSON Schema as an inline TypeScript type. */
module TypeScriptPrinter {
  import opened Wrappers
  import opened JsonTree
  import opened TypeText

  const MAX_DEPTH: nat := 32

  datatype TypeName = StringName | NumberName | BooleanName | NullName | ArrayName | ObjectName | OtherName

  datatype Names = NoType | OneName(name: TypeName) | ManyNames(names: seq<TypeName>)

  datatype Extra = NoExtra | Closed | Open(extra: Schema)

  datatype Property = Property(name: string, required: bool, schema: Schema)

  /** What the renderer looks up in a schema object; lists that are absent or no arrays are empty or None. */
  datatype Keywords = Keywords(
    constant: Option<Json>, enumeration: Option<seq<Json>>, names: Names,
    objectLike: bool, properties: seq<Property>, extra: Extra,
    arrayLike: bool, isTuple: bool, tuple: seq<Schema>, items: Option<Schema>,
    anyOf: seq<Schema>, oneOf: seq<Schema>, allOf: seq<Schema>, nullable: bool)

  datatype Schema = Never | Anything | Ref(reference: string) | Node(keywords: Keywords)

  /** `resolve` stands for following a local reference from the document root. */
  datatype Document = Document(resolve: string -> Option<Schema>)

  // ---------- Literals and keys ----------

  function HexDigit(n: nat): char
    requires n < 16
  {
    "0123456789ABCDEF"[n]
  }

  /** Characters with an escape letter of their own. */
  function EscapeLetter(c: char): Option<char> {
    if c == '"' || c == '\\' then Some(c)
    else if c == '\n' then Some('n')
    else if c == '\r' then Some('r')
    else if c == '\t' then Some('t')
    else if c == 8 as char then Some('b')
    else if c == 12 as char then Some('f')
    else None
  }

  function EscapeChar(c: char): string {
    match EscapeLetter(c)
    case Some(letter) => ['\\', letter]
    case None =>
      if IsControl(c) then ControlEscape(c as int) else [c]
  }

  /** Control characters, delete included. */
  predicate IsControl(c: char) { c < ' ' || c == 127 as char }

  function ControlEscape(code: nat): string
    requires code < 128
  {
    ['\\', 'u', '0', '0', HexDigit(code / 16), HexDigit(code % 16)]
  }

  function Escape(s: string): string { if s == [] then [] else EscapeChar(s[0]) + Escape(s[1..]) }

  /** A JSON string literal. */
  function Quote(s: string): string { "\"" + Escape(s) + "\"" }

  function Literal(value: Json): string {
    match value
    case JString(s) => Quote(s)
    case JNumber(text, _) => text
    case JBool(b) => if b then "true" else "false"
    case JNull => "null"
    case _ => "unknown"
  }

  function LiteralTree(value: Json): Ty {
    match value
    case JString(s) => Quoted(Quote(s))
    case _ => Word(Literal(value))
  }

  predicate IdentifierStart(c: char) { 'a' <= c <= 'z' || 'A' <= c <= 'Z' || c == '_' || c == '$' }

  predicate IsIdentifier(s: string) {
    s != [] && IdentifierStart(s[0]) && forall i | 0 <= i < |s| :: IdentifierStart(s[i]) || '0' <= s[i] <= '9'
  }

  /** The pattern's end anchor also matches before one final line feed. */
  predicate MatchesIdentifierPattern(s: string) {
    IsIdentifier(s) || (s != [] && s[|s| - 1] == '\n' && IsIdentifier(s[..|s| - 1]))
  }

  function PropertyName(name: string): string { if MatchesIdentifierPattern(name) then name else Quote(name) }

  // ---------- Lists of rendered types ----------

  function Grouped(text: string): string { if TopOperator(text, 0, false) then "(" + text + ")" else text }

  function JoinGrouped(texts: seq<string>, op: char): string {
    if texts == [] then ""
    else if |texts| == 1 then Grouped(texts[0])
    else Grouped(texts[0]) + [' ', op, ' '] + JoinGrouped(texts[1..], op)
  }

  function JoinComma(texts: seq<string>): string {
    if texts == [] then "" else if |texts| == 1 then texts[0] else texts[0] + ", " + JoinComma(texts[1..])
  }

  function Distinct(texts: seq<string>, seen: set<string>): seq<string> {
    if texts == [] then []
    else if texts[0] in seen then Distinct(texts[1..], seen)
    else [texts[0]] + Distinct(texts[1..], seen + {texts[0]})
  }

  function UnionText(texts: seq<string>): string {
    var distinct := Distinct(texts, {});
    if "unknown" in distinct then "unknown" else UnionOfTexts(distinct)
  }

  function Texts(ts: seq<Ty>): seq<string> {
    if ts == [] then [] else [Print(ts[0])] + Texts(ts[1..])
  }

  function DistinctTrees(ts: seq<Ty>, seen: set<string>): seq<Ty> {
    if ts == [] then []
    else if Print(ts[0]) in seen then DistinctTrees(ts[1..], seen)
    else [ts[0]] + DistinctTrees(ts[1..], seen + {Print(ts[0])})
  }

  function UnionTree(ts: seq<Ty>): Ty {
    var distinct := DistinctTrees(ts, {});
    if "unknown" in Texts(distinct) then Word("unknown") else UnionOf(distinct)
  }

  predicate AllPrintable(ts: seq<Ty>) { forall i | 0 <= i < |ts| :: Printable(ts[i]) }

  lemma {:induction false} JoinGroupedIsPrint(ts: seq<Ty>, op: char)
    requires AllPrintable(ts)
    ensures JoinGrouped(Texts(ts), op) == PrintParts(ts, op)
  {
    if ts != [] {
      OperatorScanIsExact(ts[0]);
      assert Texts(ts)[1..] == Texts(ts[1..]);
      JoinGroupedIsPrint(ts[1..], op);
    }
  }

  lemma {:induction false} JoinCommaIsPrint(ts: seq<Ty>)
    ensures JoinComma(Texts(ts)) == PrintItems(ts)
  {
    if ts != [] {
      assert Texts(ts)[1..] == Texts(ts[1..]);
      JoinCommaIsPrint(ts[1..]);
    }
  }

  lemma {:induction false} DistinctTreesPrint(ts: seq<Ty>, seen: set<string>)
    ensures Distinct(Texts(ts), seen) == Texts(DistinctTrees(ts, seen))
    ensures AllPrintable(ts) ==> AllPrintable(DistinctTrees(ts, seen))
    ensures forall i | 0 <= i < |DistinctTrees(ts, seen)| :: DistinctTrees(ts, seen)[i] in ts
  {
    if ts != [] {
      assert Texts(ts)[1..] == Texts(ts[1..]);
      DistinctTreesPrint(ts[1..], seen);
      DistinctTreesPrint(ts[1..], seen + {Print(ts[0])});
    }
  }

  lemma {:induction false} TextsLength(ts: seq<Ty>)
    ensures |Texts(ts)| == |ts| && forall i | 0 <= i < |ts| :: Texts(ts)[i] == Print(ts[i])
  {
    if ts != [] { TextsLength(ts[1..]); }
  }

  function UnionOf(distinct: seq<Ty>): Ty {
    if distinct == [] then Blank else if |distinct| == 1 then distinct[0] else Union(distinct)
  }

  function UnionOfTexts(distinct: seq<string>): string {
    if |distinct| == 1 then distinct[0] else JoinGrouped(distinct, '|')
  }

  lemma UnionOfPrints(distinct: seq<Ty>, texts: seq<string>)
    requires AllPrintable(distinct) && texts == Texts(distinct)
    ensures UnionOfTexts(texts) == Print(UnionOf(distinct)) && Printable(UnionOf(distinct))
  {
    TextsLength(distinct);
    if |distinct| != 1 {
      JoinGroupedIsPrint(distinct, '|');
    }
  }

  lemma UnionTreePrints(ts: seq<Ty>)
    requires AllPrintable(ts)
    ensures UnionText(Texts(ts)) == Print(UnionTree(ts)) && Printable(UnionTree(ts))
  {
    DistinctTreesPrint(ts, {});
    UnionOfPrints(DistinctTrees(ts, {}), Distinct(Texts(ts), {}));
  }

  // ---------- Rendering, as text ----------

  function Left(depth: nat): nat { if depth <= MAX_DEPTH then MAX_DEPTH + 1 - depth else 0 }

  function Type(doc: Document, expanding: set<string>, schema: Schema, depth: nat): string
    decreases Left(depth), 9, 0
  {
    if schema.Never? then "never"
    else if depth > MAX_DEPTH then "unknown"
    else match schema
      case Ref(reference) => Reference(doc, expanding, reference, depth)
      case Node(k) =>
        NodeText(k, Core(doc, expanding, k, depth), TypeAll(doc, expanding, k.anyOf, depth + 1),
                 TypeAll(doc, expanding, k.oneOf, depth + 1), TypeAll(doc, expanding, k.allOf, depth + 1))
      case _ => "unknown"
  }

  /** A reference already being expanded, or one that leads nowhere, is unknown. */
  function Reference(doc: Document, expanding: set<string>, reference: string, depth: nat): string
    requires depth <= MAX_DEPTH
    decreases Left(depth), 8, 0
  {
    if reference == [] || reference[0] != '#' || reference in expanding then "unknown"
    else match doc.resolve(reference)
      case None => "unknown"
      case Some(target) => Type(doc, expanding + {reference}, target, depth + 1)
  }

  /** A keyword whose members are all unknown adds nothing. */
  function Useful(members: seq<string>): seq<string> {
    if forall i | 0 <= i < |members| :: members[i] == "unknown" then [] else members
  }

  function OneUnion(members: seq<string>): seq<string> { if members == [] then [] else [UnionText(members)] }

  function Parts(core: Option<string>, anyOf: seq<string>, oneOf: seq<string>, allOf: seq<string>): seq<string> {
    (if core.Some? then [core.value] else []) + OneUnion(Useful(anyOf)) + OneUnion(Useful(oneOf)) + Useful(allOf)
  }

  function Intersection(parts: seq<string>): string {
    if parts == [] then "unknown" else if |parts| == 1 then parts[0] else JoinGrouped(parts, '&')
  }

  function NodeText(k: Keywords, core: Option<string>, anyOf: seq<string>, oneOf: seq<string>,
                    allOf: seq<string>): string {
    var text := Intersection(Parts(core, anyOf, oneOf, allOf));
    if k.nullable then UnionText([text, "null"]) else text
  }

  function Core(doc: Document, expanding: set<string>, k: Keywords, depth: nat): Option<string>
    requires depth <= MAX_DEPTH
    decreases Left(depth), 8, 0
  {
    if k.constant.Some? then Some(Literal(k.constant.value))
    else if k.enumeration.Some? then
      Some(if k.enumeration.value == [] then "never" else UnionText(Literals(k.enumeration.value)))
    else if k.names.OneName? then Some(Named(doc, expanding, k.names.name, k, depth))
    else if k.names.ManyNames? then Some(UnionText(NamedAll(doc, expanding, k.names.names, k, depth)))
    else if k.objectLike then Some(ObjectText(doc, expanding, k, depth))
    else if k.arrayLike then Some(ArrayText(doc, expanding, k, depth))
    else None
  }

  function Literals(values: seq<Json>): seq<string> {
    if values == [] then [] else [Literal(values[0])] + Literals(values[1..])
  }

  function SimpleName(name: TypeName): string {
    match name
    case StringName => "string"
    case NumberName => "number"
    case BooleanName => "boolean"
    case NullName => "null"
    case _ => "unknown"
  }

  function Named(doc: Document, expanding: set<string>, name: TypeName, k: Keywords, depth: nat): string
    requires depth <= MAX_DEPTH
    decreases Left(depth), 6, 0
  {
    if name.ArrayName? then ArrayText(doc, expanding, k, depth)
    else if name.ObjectName? then ObjectText(doc, expanding, k, depth)
    else SimpleName(name)
  }

  function NamedAll(doc: Document, expanding: set<string>, names: seq<TypeName>, k: Keywords, depth: nat): seq<string>
    requires depth <= MAX_DEPTH
    decreases Left(depth), 7, |names|
  {
    if names == [] then []
    else [Named(doc, expanding, names[0], k, depth)] + NamedAll(doc, expanding, names[1..], k, depth)
  }

  function TypeAll(doc: Document, expanding: set<string>, schemas: seq<Schema>, depth: nat): seq<string>
    decreases Left(depth), 10, |schemas|
  {
    if schemas == [] then []
    else [Type(doc, expanding, schemas[0], depth)] + TypeAll(doc, expanding, schemas[1..], depth)
  }

  function ArrayText(doc: Document, expanding: set<string>, k: Keywords, depth: nat): string
    requires depth <= MAX_DEPTH
    decreases Left(depth), 5, 0
  {
    if k.isTuple then "[" + JoinComma(TypeAll(doc, expanding, k.tuple, depth + 1)) + "]"
    else if k.items.Some? then Grouped(Type(doc, expanding, k.items.value, depth + 1)) + "[]"
    else "unknown[]"
  }

  function Line(p: Property, text: string): string {
    PropertyName(p.name) + (if p.required then "" else "?") + ": " + text + ";"
  }

  function Lines(doc: Document, expanding: set<string>, properties: seq<Property>, depth: nat): seq<string>
    decreases Left(depth), 10, |properties|
  {
    if properties == [] then []
    else
      [Line(properties[0], Type(doc, expanding, properties[0].schema, depth))]
      + Lines(doc, expanding, properties[1..], depth)
  }

  function JoinSpace(lines: seq<string>): string {
    if lines == [] then "" else if |lines| == 1 then lines[0] else lines[0] + " " + JoinSpace(lines[1..])
  }

  function TrimEnd(s: string): string {
    if s != [] && s[|s| - 1] == ';' then TrimEnd(s[..|s| - 1]) else s
  }

  function Braced(k: Keywords, lines: seq<string>): string {
    if lines == [] then (if k.extra.Closed? then "{}" else OPEN_RECORD)
    else "{ " + TrimEnd(JoinSpace(lines)) + " }"
  }

  function ObjectText(doc: Document, expanding: set<string>, k: Keywords, depth: nat): string
    requires depth <= MAX_DEPTH
    decreases Left(depth), 5, 0
  {
    var named := Lines(doc, expanding, k.properties, depth + 1);
    Braced(k, if k.extra.Open? then named + [IndexLine(Type(doc, expanding, k.extra.extra, depth + 1))] else named)
  }

  function IndexLine(text: string): string { "[key: string]: " + text + ";" }

  function Render(doc: Document, schema: Schema): string { Type(doc, {}, schema, 0) }

  // ---------- Rendering, as a tree ----------

  function TypeTree(doc: Document, expanding: set<string>, schema: Schema, depth: nat): Ty
    decreases Left(depth), 9, 0
  {
    if schema.Never? then Word("never")
    else if depth > MAX_DEPTH then Word("unknown")
    else match schema
      case Ref(reference) => ReferenceTree(doc, expanding, reference, depth)
      case Node(k) =>
        NodeTree(k, CoreTree(doc, expanding, k, depth), TypeTrees(doc, expanding, k.anyOf, depth + 1),
                 TypeTrees(doc, expanding, k.oneOf, depth + 1), TypeTrees(doc, expanding, k.allOf, depth + 1))
      case _ => Word("unknown")
  }

  function ReferenceTree(doc: Document, expanding: set<string>, reference: string, depth: nat): Ty
    requires depth <= MAX_DEPTH
    decreases Left(depth), 8, 0
  {
    if reference == [] || reference[0] != '#' || reference in expanding then Word("unknown")
    else match doc.resolve(reference)
      case None => Word("unknown")
      case Some(target) => TypeTree(doc, expanding + {reference}, target, depth + 1)
  }

  function UsefulTrees(members: seq<Ty>): seq<Ty> {
    if forall i | 0 <= i < |members| :: Print(members[i]) == "unknown" then [] else members
  }

  function OneUnionTree(members: seq<Ty>): seq<Ty> { if members == [] then [] else [UnionTree(members)] }

  function PartTrees(core: Option<Ty>, anyOf: seq<Ty>, oneOf: seq<Ty>, allOf: seq<Ty>): seq<Ty> {
    (if core.Some? then [core.value] else []) + OneUnionTree(UsefulTrees(anyOf)) + OneUnionTree(UsefulTrees(oneOf))
    + UsefulTrees(allOf)
  }

  function IntersectionTree(parts: seq<Ty>): Ty {
    if parts == [] then Word("unknown") else if |parts| == 1 then parts[0] else Inter(parts)
  }

  function NodeTree(k: Keywords, core: Option<Ty>, anyOf: seq<Ty>, oneOf: seq<Ty>, allOf: seq<Ty>): Ty {
    var tree := IntersectionTree(PartTrees(core, anyOf, oneOf, allOf));
    if k.nullable then UnionTree([tree, Word("null")]) else tree
  }

  function CoreTree(doc: Document, expanding: set<string>, k: Keywords, depth: nat): Option<Ty>
    requires depth <= MAX_DEPTH
    decreases Left(depth), 8, 0
  {
    if k.constant.Some? then Some(LiteralTree(k.constant.value))
    else if k.enumeration.Some? then
      Some(if k.enumeration.value == [] then Word("never") else UnionTree(LiteralTrees(k.enumeration.value)))
    else if k.names.OneName? then Some(NamedTree(doc, expanding, k.names.name, k, depth))
    else if k.names.ManyNames? then Some(UnionTree(NamedTrees(doc, expanding, k.names.names, k, depth)))
    else if k.objectLike then Some(ObjectTree(doc, expanding, k, depth))
    else if k.arrayLike then Some(ArrayTree(doc, expanding, k, depth))
    else None
  }

  function LiteralTrees(values: seq<Json>): seq<Ty> {
    if values == [] then [] else [LiteralTree(values[0])] + LiteralTrees(values[1..])
  }

  function NamedTree(doc: Document, expanding: set<string>, name: TypeName, k: Keywords, depth: nat): Ty
    requires depth <= MAX_DEPTH
    decreases Left(depth), 6, 0
  {
    if name.ArrayName? then ArrayTree(doc, expanding, k, depth)
    else if name.ObjectName? then ObjectTree(doc, expanding, k, depth)
    else Word(SimpleName(name))
  }

  function NamedTrees(doc: Document, expanding: set<string>, names: seq<TypeName>, k: Keywords, depth: nat): seq<Ty>
    requires depth <= MAX_DEPTH
    decreases Left(depth), 7, |names|
  {
    if names == [] then []
    else [NamedTree(doc, expanding, names[0], k, depth)] + NamedTrees(doc, expanding, names[1..], k, depth)
  }

  function TypeTrees(doc: Document, expanding: set<string>, schemas: seq<Schema>, depth: nat): seq<Ty>
    decreases Left(depth), 10, |schemas|
  {
    if schemas == [] then []
    else [TypeTree(doc, expanding, schemas[0], depth)] + TypeTrees(doc, expanding, schemas[1..], depth)
  }

  function ArrayTree(doc: Document, expanding: set<string>, k: Keywords, depth: nat): Ty
    requires depth <= MAX_DEPTH
    decreases Left(depth), 5, 0
  {
    if k.isTuple then Tuple(TypeTrees(doc, expanding, k.tuple, depth + 1))
    else if k.items.Some? then Arr(TypeTree(doc, expanding, k.items.value, depth + 1))
    else Arr(Word("unknown"))
  }

  function FieldOf(p: Property, tree: Ty): Field { Prop(PropertyName(p.name), !p.required, tree) }

  function Fields(doc: Document, expanding: set<string>, properties: seq<Property>, depth: nat): seq<Field>
    decreases Left(depth), 10, |properties|
  {
    if properties == [] then []
    else
      [FieldOf(properties[0], TypeTree(doc, expanding, properties[0].schema, depth))]
      + Fields(doc, expanding, properties[1..], depth)
  }

  function BracedTree(k: Keywords, fields: seq<Field>): Ty {
    if fields == [] && !k.extra.Closed? then OpenRecord else Object(fields)
  }

  function ObjectTree(doc: Document, expanding: set<string>, k: Keywords, depth: nat): Ty
    requires depth <= MAX_DEPTH
    decreases Left(depth), 5, 0
  {
    BracedTree(k, ObjectFields(doc, expanding, k, depth))
  }

  function ObjectFields(doc: Document, expanding: set<string>, k: Keywords, depth: nat): seq<Field>
    requires depth <= MAX_DEPTH
    decreases Left(depth), 4, 0
  {
    var named := Fields(doc, expanding, k.properties, depth + 1);
    if k.extra.Open? then named + [Index(TypeTree(doc, expanding, k.extra.extra, depth + 1))] else named
  }

  // ---------- The text is the print of the tree ----------

  lemma EscapedChar(c: char, rest: string)
    requires BodyLength(rest).Some?
    ensures BodyLength(EscapeChar(c) + rest) == Some(|EscapeChar(c)| + BodyLength(rest).value)
  {
    match EscapeLetter(c)
    case Some(letter) => EscapedByLetter(letter, rest);
    case None =>
      if IsControl(c) { EscapedControl(c as int, rest); } else { OrdinaryChar(c, rest); }
  }

  lemma EscapedByLetter(letter: char, rest: string)
    requires BodyLength(rest).Some?
    ensures BodyLength(['\\', letter] + rest) == Some(2 + BodyLength(rest).value)
  {
    assert (['\\', letter] + rest)[2..] == rest;
  }

  lemma EscapedControl(code: nat, rest: string)
    requires code < 128 && BodyLength(rest).Some?
    ensures BodyLength(ControlEscape(code) + rest) == Some(|ControlEscape(code)| + BodyLength(rest).value)
  {
    HexDigitsAreOrdinary(code / 16);
    HexDigitsAreOrdinary(code % 16);
    EscapedDigits(['0', '0', HexDigit(code / 16), HexDigit(code % 16)], rest);
    assert ControlEscape(code) == ['\\', 'u'] + ['0', '0', HexDigit(code / 16), HexDigit(code % 16)];
  }

  lemma EscapedDigits(digits: string, rest: string)
    requires |digits| == 4 && BodyLength(rest).Some?
    requires forall i | 0 <= i < 4 :: digits[i] != '"' && digits[i] != '\\'
    ensures BodyLength(['\\', 'u'] + digits + rest) == Some(6 + BodyLength(rest).value)
  {
    assert digits == [digits[0], digits[1]] + [digits[2], digits[3]];
    Assoc([digits[0], digits[1]], [digits[2], digits[3]], rest);
    TwoOrdinaryChars(digits[2], digits[3], rest);
    TwoOrdinaryChars(digits[0], digits[1], [digits[2], digits[3]] + rest);
    EscapedByLetter('u', digits + rest);
    Assoc(['\\', 'u'], digits, rest);
  }

  lemma TwoOrdinaryChars(a: char, b: char, rest: string)
    requires a != '"' && a != '\\' && b != '"' && b != '\\' && BodyLength(rest).Some?
    ensures BodyLength([a, b] + rest) == Some(2 + BodyLength(rest).value)
  {
    OrdinaryChar(b, rest);
    OrdinaryChar(a, [b] + rest);
    Assoc([a], [b], rest);
    assert [a] + [b] == [a, b];
  }

  lemma HexDigitsAreOrdinary(n: nat)
    requires n < 16
    ensures HexDigit(n) != '"' && HexDigit(n) != '\\'
  {
  }

  lemma OrdinaryChar(c: char, rest: string)
    requires c != '"' && c != '\\' && BodyLength(rest).Some?
    ensures BodyLength([c] + rest) == Some(1 + BodyLength(rest).value)
  {
    assert ([c] + rest)[1..] == rest;
  }

  lemma {:induction false} EscapedText(s: string)
    ensures BodyLength(Escape(s) + "\"") == Some(|Escape(s)| + 1)
  {
    if s == [] {
      assert Escape(s) + "\"" == "\"";
    } else {
      EscapedText(s[1..]);
      EscapedChar(s[0], Escape(s[1..]) + "\"");
      assert Escape(s) + "\"" == EscapeChar(s[0]) + (Escape(s[1..]) + "\"");
    }
  }

  lemma QuoteIsQuoted(s: string)
    ensures IsQuoted(Quote(s))
  {
    EscapedText(s);
    assert Quote(s)[1..] == Escape(s) + "\"";
  }

  lemma LiteralIsPrint(value: Json)
    ensures Literal(value) == Print(LiteralTree(value)) && Readable(LiteralTree(value)) && Printable(LiteralTree(value))
  {
    if value.JString? { QuoteIsQuoted(value.s); }
  }

  lemma PropertyNameIsKey(name: string)
    ensures PrintableKey(PropertyName(name))
    ensures IsName(PropertyName(name)) || IsQuoted(PropertyName(name))
            <==> IsIdentifier(name) || !MatchesIdentifierPattern(name)
  {
    var key := PropertyName(name);
    if !MatchesIdentifierPattern(name) {
      QuoteIsQuoted(name);
    } else if !IsIdentifier(name) {
      assert !NameChar(key[|key| - 1]) && key[0] != '"';
    }
  }

  lemma {:induction false} TextsConcat(a: seq<Ty>, b: seq<Ty>)
    ensures Texts(a + b) == Texts(a) + Texts(b)
  {
    if a == [] {
      assert a + b == b;
    } else {
      TextsConcat(a[1..], b);
      assert (a + b)[1..] == a[1..] + b;
      Assoc([Print(a[0])], Texts(a[1..]), Texts(b));
    }
  }

  lemma {:induction false} LiteralsArePrints(values: seq<Json>)
    ensures Literals(values) == Texts(LiteralTrees(values)) && AllPrintable(LiteralTrees(values))
  {
    if values != [] {
      LiteralIsPrint(values[0]);
      LiteralsArePrints(values[1..]);
    }
  }

  lemma OneUnionIsPrint(ts: seq<Ty>)
    requires AllPrintable(ts)
    ensures OneUnion(Texts(ts)) == Texts(OneUnionTree(ts)) && AllPrintable(OneUnionTree(ts))
  {
    if ts != [] {
      UnionTreePrints(ts);
      assert Texts([UnionTree(ts)]) == [Print(UnionTree(ts))] + Texts([]);
    }
  }

  lemma UsefulIsPrint(ts: seq<Ty>)
    requires AllPrintable(ts)
    ensures Useful(Texts(ts)) == Texts(UsefulTrees(ts)) && AllPrintable(UsefulTrees(ts))
  {
    TextsLength(ts);
  }

  lemma SingleText(t: Ty)
    ensures Texts([t]) == [Print(t)]
  {
    assert Texts([t]) == [Print(t)] + Texts([]);
  }

  lemma PartsArePrints(core: Option<Ty>, anyOf: seq<Ty>, oneOf: seq<Ty>, allOf: seq<Ty>)
    requires (core.Some? ==> Printable(core.value)) && AllPrintable(anyOf) && AllPrintable(oneOf) && AllPrintable(allOf)
    ensures Parts(PrintOption(core), Texts(anyOf), Texts(oneOf), Texts(allOf))
            == Texts(PartTrees(core, anyOf, oneOf, allOf))
    ensures AllPrintable(PartTrees(core, anyOf, oneOf, allOf))
  {
    var first := if core.Some? then [core.value] else [];
    UsefulIsPrint(anyOf);
    UsefulIsPrint(oneOf);
    UsefulIsPrint(allOf);
    var a, b, c := OneUnionTree(UsefulTrees(anyOf)), OneUnionTree(UsefulTrees(oneOf)), UsefulTrees(allOf);
    OneUnionIsPrint(UsefulTrees(anyOf));
    OneUnionIsPrint(UsefulTrees(oneOf));
    TextsConcat(first, a);
    TextsConcat(first + a, b);
    TextsConcat(first + a + b, c);
    if core.Some? { SingleText(core.value); }
  }

  function PrintOption(t: Option<Ty>): Option<string> {
    match t case None => None case Some(v) => Some(Print(v))
  }

  lemma IntersectionIsPrint(parts: seq<Ty>)
    requires AllPrintable(parts)
    ensures Intersection(Texts(parts)) == Print(IntersectionTree(parts)) && Printable(IntersectionTree(parts))
  {
    TextsLength(parts);
    JoinGroupedIsPrint(parts, '&');
  }

  lemma NullableIsPrint(tree: Ty)
    requires Printable(tree)
    ensures UnionText([Print(tree), "null"]) == Print(UnionTree([tree, Word("null")]))
            && Printable(UnionTree([tree, Word("null")]))
  {
    var ts := [tree, Word("null")];
    UnionTreePrints(ts);
    TextsLength(ts);
    assert Texts(ts) == [Print(tree), "null"];
  }

  lemma NodeIsPrint(k: Keywords, core: Option<Ty>, anyOf: seq<Ty>, oneOf: seq<Ty>, allOf: seq<Ty>)
    requires (core.Some? ==> Printable(core.value)) && AllPrintable(anyOf) && AllPrintable(oneOf) && AllPrintable(allOf)
    ensures NodeText(k, PrintOption(core), Texts(anyOf), Texts(oneOf), Texts(allOf))
            == Print(NodeTree(k, core, anyOf, oneOf, allOf))
    ensures Printable(NodeTree(k, core, anyOf, oneOf, allOf))
  {
    PartsArePrints(core, anyOf, oneOf, allOf);
    IntersectionIsPrint(PartTrees(core, anyOf, oneOf, allOf));
    if k.nullable {
      NullableIsPrint(IntersectionTree(PartTrees(core, anyOf, oneOf, allOf)));
    }
  }

  lemma {:induction false} TypeIsPrint(doc: Document, expanding: set<string>, schema: Schema, depth: nat)
    ensures Type(doc, expanding, schema, depth) == Print(TypeTree(doc, expanding, schema, depth))
    ensures Printable(TypeTree(doc, expanding, schema, depth))
    decreases Left(depth), 9, 0
  {
    if depth <= MAX_DEPTH {
      match schema
      case Ref(reference) =>
        if reference != [] && reference[0] == '#' && reference !in expanding && doc.resolve(reference).Some? {
          TypeIsPrint(doc, expanding + {reference}, doc.resolve(reference).value, depth + 1);
        }
      case Node(k) =>
        CoreIsPrint(doc, expanding, k, depth);
        TypeAllArePrints(doc, expanding, k.anyOf, depth + 1);
        TypeAllArePrints(doc, expanding, k.oneOf, depth + 1);
        TypeAllArePrints(doc, expanding, k.allOf, depth + 1);
        NodeIsPrint(k, CoreTree(doc, expanding, k, depth), TypeTrees(doc, expanding, k.anyOf, depth + 1),
                    TypeTrees(doc, expanding, k.oneOf, depth + 1), TypeTrees(doc, expanding, k.allOf, depth + 1));
      case _ =>
    }
  }

  lemma {:induction false} CoreIsPrint(doc: Document, expanding: set<string>, k: Keywords, depth: nat)
    requires depth <= MAX_DEPTH
    ensures Core(doc, expanding, k, depth) == PrintOption(CoreTree(doc, expanding, k, depth))
    ensures CoreTree(doc, expanding, k, depth).Some? ==> Printable(CoreTree(doc, expanding, k, depth).value)
    decreases Left(depth), 8, 0
  {
    if k.constant.Some? {
      LiteralIsPrint(k.constant.value);
    } else if k.enumeration.Some? {
      LiteralsArePrints(k.enumeration.value);
      UnionTreePrints(LiteralTrees(k.enumeration.value));
    } else if k.names.OneName? {
      NamedIsPrint(doc, expanding, k.names.name, k, depth);
    } else if k.names.ManyNames? {
      NamedAllArePrints(doc, expanding, k.names.names, k, depth);
      UnionTreePrints(NamedTrees(doc, expanding, k.names.names, k, depth));
    } else if k.objectLike {
      ObjectIsPrint(doc, expanding, k, depth);
    } else if k.arrayLike {
      ArrayIsPrint(doc, expanding, k, depth);
    }
  }

  lemma {:induction false} NamedIsPrint(doc: Document, expanding: set<string>, name: TypeName, k: Keywords, depth: nat)
    requires depth <= MAX_DEPTH
    ensures Named(doc, expanding, name, k, depth) == Print(NamedTree(doc, expanding, name, k, depth))
    ensures Printable(NamedTree(doc, expanding, name, k, depth))
    decreases Left(depth), 6, 0
  {
    if name.ArrayName? {
      ArrayIsPrint(doc, expanding, k, depth);
    } else if name.ObjectName? {
      ObjectIsPrint(doc, expanding, k, depth);
    }
  }

  lemma {:induction false} NamedAllArePrints(doc: Document, expanding: set<string>, names: seq<TypeName>, k: Keywords,
                                             depth: nat)
    requires depth <= MAX_DEPTH
    ensures NamedAll(doc, expanding, names, k, depth) == Texts(NamedTrees(doc, expanding, names, k, depth))
    ensures AllPrintable(NamedTrees(doc, expanding, names, k, depth))
    decreases Left(depth), 7, |names|
  {
    if names != [] {
      NamedIsPrint(doc, expanding, names[0], k, depth);
      NamedAllArePrints(doc, expanding, names[1..], k, depth);
    }
  }

  lemma {:induction false} TypeAllArePrints(doc: Document, expanding: set<string>, schemas: seq<Schema>, depth: nat)
    ensures TypeAll(doc, expanding, schemas, depth) == Texts(TypeTrees(doc, expanding, schemas, depth))
    ensures AllPrintable(TypeTrees(doc, expanding, schemas, depth))
    decreases Left(depth), 10, |schemas|
  {
    if schemas != [] {
      TypeIsPrint(doc, expanding, schemas[0], depth);
      TypeAllArePrints(doc, expanding, schemas[1..], depth);
    }
  }

  lemma {:induction false} ArrayIsPrint(doc: Document, expanding: set<string>, k: Keywords, depth: nat)
    requires depth <= MAX_DEPTH
    ensures ArrayText(doc, expanding, k, depth) == Print(ArrayTree(doc, expanding, k, depth))
    ensures Printable(ArrayTree(doc, expanding, k, depth))
    decreases Left(depth), 5, 0
  {
    if k.isTuple {
      TypeAllArePrints(doc, expanding, k.tuple, depth + 1);
      JoinCommaIsPrint(TypeTrees(doc, expanding, k.tuple, depth + 1));
    } else if k.items.Some? {
      TypeIsPrint(doc, expanding, k.items.value, depth + 1);
      OperatorScanIsExact(TypeTree(doc, expanding, k.items.value, depth + 1));
    }
  }

  predicate AllPrintableFields(fs: seq<Field>) {
    forall i | 0 <= i < |fs| :: (fs[i].Prop? ==> PrintableKey(fs[i].key)) && Printable(fs[i].ty)
  }

  function FieldLines(fs: seq<Field>): seq<string> {
    if fs == [] then [] else [PrintField(fs[0]) + ";"] + FieldLines(fs[1..])
  }

  lemma {:induction false} FieldLinesAppend(fs: seq<Field>, f: Field)
    ensures FieldLines(fs + [f]) == FieldLines(fs) + [PrintField(f) + ";"]
  {
    if fs == [] {
      assert fs + [f] == [f] && FieldLines([f]) == [PrintField(f) + ";"] + FieldLines([]);
    } else {
      FieldLinesAppend(fs[1..], f);
      assert (fs + [f])[1..] == fs[1..] + [f];
    }
  }

  lemma SemicolonSpace(a: string, b: string)
    ensures (a + ";") + " " + (b + ";") == (a + "; " + b) + ";"
  {
  }

  lemma {:induction false} JoinedLines(fs: seq<Field>)
    requires fs != []
    ensures JoinSpace(FieldLines(fs)) == PrintFields(fs) + ";"
  {
    var lines := FieldLines(fs);
    assert lines[1..] == FieldLines(fs[1..]);
    if |fs| == 1 {
      assert FieldLines(fs[1..]) == [];
    } else {
      JoinedLines(fs[1..]);
      var tail := PrintFields(fs[1..]);
      assert |lines| > 1 by { assert FieldLines(fs[1..]) != []; }
      SemicolonSpace(PrintField(fs[0]), tail);
    }
  }

  lemma LineIsPrint(p: Property, tree: Ty)
    ensures Line(p, Print(tree)) == PrintField(FieldOf(p, tree)) + ";" && PrintableKey(FieldOf(p, tree).key)
  {
    PropertyNameIsKey(p.name);
  }

  /** Every line prints as its field does, with a semicolon. */
  lemma {:induction false} LinesArePrints(doc: Document, expanding: set<string>, properties: seq<Property>, depth: nat)
    ensures Lines(doc, expanding, properties, depth) == FieldLines(Fields(doc, expanding, properties, depth))
    ensures AllPrintableFields(Fields(doc, expanding, properties, depth))
    decreases Left(depth), 10, |properties|
  {
    if properties != [] {
      var p := properties[0];
      TypeIsPrint(doc, expanding, p.schema, depth);
      LinesArePrints(doc, expanding, properties[1..], depth);
      LineIsPrint(p, TypeTree(doc, expanding, p.schema, depth));
    }
  }

  predicate EndsOpen(s: string) { s == [] || s[|s| - 1] != ';' }

  /** No printed type ends in a semicolon, so trimming removes exactly the last separator. */
  lemma {:induction false} PrintEnd(t: Ty)
    requires Printable(t)
    ensures EndsOpen(Print(t)) && EndsOpen(Group(t))
    decreases t, 1
  {
    match t
    case Word(w) => assert NameChar(w[|w| - 1]);
    case Quoted(raw) => QuotedEnd(raw[1..]);
    case Union(ps) => PartsEnd(ps, '|');
    case Inter(ps) => PartsEnd(ps, '&');
    case _ =>
  }

  lemma {:induction false} QuotedEnd(body: string)
    requires BodyLength(body) == Some(|body|)
    ensures body != [] && body[|body| - 1] == '"'
  {
    if body[0] == '\\' { QuotedEnd(body[2..]); } else if body[0] != '"' { QuotedEnd(body[1..]); }
  }

  lemma {:induction false} PartsEnd(ps: seq<Ty>, op: char)
    requires ps != [] && AllPrintable(ps)
    ensures EndsOpen(PrintParts(ps, op))
    decreases ps, 0
  {
    if |ps| == 1 { PrintEnd(ps[0]); } else { PartsEnd(ps[1..], op); }
  }

  lemma {:induction false} FieldsEnd(fs: seq<Field>)
    requires fs != [] && AllPrintableFields(fs)
    ensures PrintFields(fs) != [] && EndsOpen(PrintFields(fs))
  {
    if |fs| == 1 { PrintEnd(fs[0].ty); } else { FieldsEnd(fs[1..]); }
  }

  lemma TrimmedFields(fs: seq<Field>)
    requires fs != [] && AllPrintableFields(fs)
    ensures TrimEnd(JoinSpace(FieldLines(fs))) == PrintFields(fs)
  {
    JoinedLines(fs);
    FieldsEnd(fs);
    assert (PrintFields(fs) + ";")[..|PrintFields(fs)|] == PrintFields(fs);
  }

  lemma BracedIsPrint(k: Keywords, fs: seq<Field>)
    requires AllPrintableFields(fs)
    ensures Braced(k, FieldLines(fs)) == Print(BracedTree(k, fs)) && Printable(BracedTree(k, fs))
  {
    if fs != [] {
      TrimmedFields(fs);
      assert FieldLines(fs) != [];
    }
  }

  lemma IndexLineIsPrint(tree: Ty)
    ensures IndexLine(Print(tree)) == PrintField(Index(tree)) + ";"
  {
  }

  lemma OpenObjectIsPrint(k: Keywords, named: seq<Field>, tree: Ty)
    requires AllPrintableFields(named) && Printable(tree)
    ensures Braced(k, FieldLines(named) + [IndexLine(Print(tree))]) == Print(BracedTree(k, named + [Index(tree)]))
    ensures Printable(BracedTree(k, named + [Index(tree)]))
  {
    FieldLinesAppend(named, Index(tree));
    IndexLineIsPrint(tree);
    BracedIsPrint(k, named + [Index(tree)]);
  }

  lemma {:induction false} ObjectIsPrint(doc: Document, expanding: set<string>, k: Keywords, depth: nat)
    requires depth <= MAX_DEPTH
    ensures ObjectText(doc, expanding, k, depth) == Print(ObjectTree(doc, expanding, k, depth))
    ensures Printable(ObjectTree(doc, expanding, k, depth))
    decreases Left(depth), 5, 0
  {
    LinesArePrints(doc, expanding, k.properties, depth + 1);
    var named := Fields(doc, expanding, k.properties, depth + 1);
    if k.extra.Open? {
      TypeIsPrint(doc, expanding, k.extra.extra, depth + 1);
      OpenObjectIsPrint(k, named, TypeTree(doc, expanding, k.extra.extra, depth + 1));
    } else {
      BracedIsPrint(k, named);
    }
  }

  // ---------- The main results ----------

  /** On every rendered text the operator scan answers for the root of the type tree. */
  lemma RenderedScanIsExact(doc: Document, schema: Schema)
    ensures TopOperator(Render(doc, schema), 0, false) <==> IsOp(TypeTree(doc, {}, schema, 0))
  {
    TypeIsPrint(doc, {}, schema, 0);
    OperatorScanIsExact(TypeTree(doc, {}, schema, 0));
  }

  /** The rendered text reads back as the type tree exactly when the tree is readable. */
  lemma RenderedTypeReadsBack(doc: Document, schema: Schema)
    ensures ParseType(Render(doc, schema)) == Ok(TypeTree(doc, {}, schema, 0), "")
            <==> Readable(TypeTree(doc, {}, schema, 0))
  {
    TypeIsPrint(doc, {}, schema, 0);
    PrintedTypeReadsBack(TypeTree(doc, {}, schema, 0));
  }

  // ---------- When the tree is readable ----------

  predicate AllReadable(ts: seq<Ty>) { forall i | 0 <= i < |ts| :: Readable(ts[i]) }

  predicate AllReadableFields(fs: seq<Field>) { forall i | 0 <= i < |fs| :: ReadableField(fs[i]) }

  /** No type array without a name, and no property name that is an identifier and a line feed. */
  ghost predicate Clean(schema: Schema)
    decreases schema
  {
    schema.Node? ==>
      var k := schema.keywords;
      k.names != ManyNames([])
      && (forall i | 0 <= i < |k.properties| :: CleanName(k.properties[i].name) && Clean(k.properties[i].schema))
      && (k.extra.Open? ==> Clean(k.extra.extra))
      && (k.isTuple ==> forall i | 0 <= i < |k.tuple| :: Clean(k.tuple[i]))
      && (k.items.Some? ==> Clean(k.items.value))
      && (forall i | 0 <= i < |k.anyOf| :: Clean(k.anyOf[i]))
      && (forall i | 0 <= i < |k.oneOf| :: Clean(k.oneOf[i]))
      && (forall i | 0 <= i < |k.allOf| :: Clean(k.allOf[i]))
  }

  predicate CleanName(name: string) { IsIdentifier(name) || !MatchesIdentifierPattern(name) }

  ghost predicate CleanDocument(doc: Document) {
    forall r :: doc.resolve(r).Some? ==> Clean(doc.resolve(r).value)
  }

  lemma {:induction false} DistinctTreesNonempty(ts: seq<Ty>)
    requires ts != []
    ensures DistinctTrees(ts, {}) != []
  {
  }

  lemma UnionTreeReadable(ts: seq<Ty>)
    requires ts != [] && AllReadable(ts)
    ensures Readable(UnionTree(ts))
  {
    DistinctTreesNonempty(ts);
    DistinctTreesPrint(ts, {});
    var distinct := DistinctTrees(ts, {});
    forall i | 0 <= i < |distinct| ensures Readable(distinct[i]) {
      assert distinct[i] in ts;
    }
  }

  lemma {:induction false} LiteralsAreReadable(values: seq<Json>)
    ensures AllReadable(LiteralTrees(values)) && |LiteralTrees(values)| == |values|
  {
    if values != [] {
      LiteralIsPrint(values[0]);
      LiteralsAreReadable(values[1..]);
    }
  }

  lemma NodeIsReadable(k: Keywords, core: Option<Ty>, anyOf: seq<Ty>, oneOf: seq<Ty>, allOf: seq<Ty>)
    requires (core.Some? ==> Readable(core.value)) && AllReadable(anyOf) && AllReadable(oneOf) && AllReadable(allOf)
    ensures Readable(NodeTree(k, core, anyOf, oneOf, allOf))
  {
    PartsAreReadable(core, anyOf, oneOf, allOf);
    var tree := IntersectionTree(PartTrees(core, anyOf, oneOf, allOf));
    IntersectionIsReadable(PartTrees(core, anyOf, oneOf, allOf));
    UnionTreeReadable([tree, Word("null")]);
  }

  lemma IntersectionIsReadable(parts: seq<Ty>)
    requires AllReadable(parts)
    ensures Readable(IntersectionTree(parts))
  {
  }

  lemma OneUnionIsReadable(members: seq<Ty>)
    requires AllReadable(members)
    ensures AllReadable(OneUnionTree(UsefulTrees(members))) && AllReadable(UsefulTrees(members))
  {
    if UsefulTrees(members) != [] {
      UnionTreeReadable(members);
    }
  }

  lemma PartsAreReadable(core: Option<Ty>, anyOf: seq<Ty>, oneOf: seq<Ty>, allOf: seq<Ty>)
    requires (core.Some? ==> Readable(core.value)) && AllReadable(anyOf) && AllReadable(oneOf) && AllReadable(allOf)
    ensures AllReadable(PartTrees(core, anyOf, oneOf, allOf))
  {
    OneUnionIsReadable(anyOf);
    OneUnionIsReadable(oneOf);
    OneUnionIsReadable(allOf);
  }

  /** A clean schema renders to a readable tree. */
  lemma {:induction false} CleanIsReadable(doc: Document, expanding: set<string>, schema: Schema, depth: nat)
    requires CleanDocument(doc) && Clean(schema)
    ensures Readable(TypeTree(doc, expanding, schema, depth))
    decreases Left(depth), 9, 0
  {
    if depth <= MAX_DEPTH {
      match schema
      case Ref(reference) =>
        if reference != [] && reference[0] == '#' && reference !in expanding && doc.resolve(reference).Some? {
          CleanIsReadable(doc, expanding + {reference}, doc.resolve(reference).value, depth + 1);
        }
      case Node(k) =>
        CoreIsReadable(doc, expanding, k, depth);
        AllAreReadable(doc, expanding, k.anyOf, depth + 1);
        AllAreReadable(doc, expanding, k.oneOf, depth + 1);
        AllAreReadable(doc, expanding, k.allOf, depth + 1);
        NodeIsReadable(k, CoreTree(doc, expanding, k, depth), TypeTrees(doc, expanding, k.anyOf, depth + 1),
                       TypeTrees(doc, expanding, k.oneOf, depth + 1), TypeTrees(doc, expanding, k.allOf, depth + 1));
      case _ =>
    }
  }

  lemma {:induction false} AllAreReadable(doc: Document, expanding: set<string>, schemas: seq<Schema>, depth: nat)
    requires CleanDocument(doc) && forall i | 0 <= i < |schemas| :: Clean(schemas[i])
    ensures AllReadable(TypeTrees(doc, expanding, schemas, depth))
    decreases Left(depth), 10, |schemas|
  {
    if schemas != [] {
      CleanIsReadable(doc, expanding, schemas[0], depth);
      AllAreReadable(doc, expanding, schemas[1..], depth);
    }
  }

  lemma {:induction false} CoreIsReadable(doc: Document, expanding: set<string>, k: Keywords, depth: nat)
    requires depth <= MAX_DEPTH && CleanDocument(doc) && Clean(Node(k))
    ensures CoreTree(doc, expanding, k, depth).Some? ==> Readable(CoreTree(doc, expanding, k, depth).value)
    decreases Left(depth), 8, 0
  {
    if k.constant.Some? {
      LiteralIsPrint(k.constant.value);
    } else if k.enumeration.Some? {
      LiteralsAreReadable(k.enumeration.value);
      if k.enumeration.value != [] { UnionTreeReadable(LiteralTrees(k.enumeration.value)); }
    } else if k.names.OneName? {
      NamedIsReadable(doc, expanding, k.names.name, k, depth);
    } else if k.names.ManyNames? {
      NamedAllAreReadable(doc, expanding, k.names.names, k, depth);
      UnionTreeReadable(NamedTrees(doc, expanding, k.names.names, k, depth));
    } else if k.objectLike {
      NamedIsReadable(doc, expanding, ObjectName, k, depth);
    } else if k.arrayLike {
      NamedIsReadable(doc, expanding, ArrayName, k, depth);
    }
  }

  lemma {:induction false} NamedAllAreReadable(doc: Document, expanding: set<string>, names: seq<TypeName>, k: Keywords,
                                               depth: nat)
    requires depth <= MAX_DEPTH && CleanDocument(doc) && Clean(Node(k))
    ensures AllReadable(NamedTrees(doc, expanding, names, k, depth))
            && |NamedTrees(doc, expanding, names, k, depth)| == |names|
    decreases Left(depth), 7, |names|
  {
    if names != [] {
      NamedIsReadable(doc, expanding, names[0], k, depth);
      NamedAllAreReadable(doc, expanding, names[1..], k, depth);
    }
  }

  lemma {:induction false} NamedIsReadable(doc: Document, expanding: set<string>, name: TypeName, k: Keywords,
                                           depth: nat)
    requires depth <= MAX_DEPTH && CleanDocument(doc) && Clean(Node(k))
    ensures Readable(NamedTree(doc, expanding, name, k, depth))
    decreases Left(depth), 6, 0
  {
    if name.ArrayName? {
      if k.isTuple {
        AllAreReadable(doc, expanding, k.tuple, depth + 1);
      } else if k.items.Some? {
        CleanIsReadable(doc, expanding, k.items.value, depth + 1);
      }
    } else if name.ObjectName? {
      FieldsAreReadable(doc, expanding, k.properties, depth + 1);
      if k.extra.Open? {
        CleanIsReadable(doc, expanding, k.extra.extra, depth + 1);
      }
      var fs := ObjectFields(doc, expanding, k, depth);
      assert AllReadableFields(fs);
      BracedIsReadable(k, fs);
      assert ObjectTree(doc, expanding, k, depth) == BracedTree(k, fs);
    }
  }

  lemma BracedIsReadable(k: Keywords, fs: seq<Field>)
    requires AllReadableFields(fs)
    ensures Readable(BracedTree(k, fs))
  {
  }

  lemma {:induction false} FieldsAreReadable(doc: Document, expanding: set<string>, properties: seq<Property>,
                                             depth: nat)
    requires CleanDocument(doc)
    requires forall i | 0 <= i < |properties| :: CleanName(properties[i].name) && Clean(properties[i].schema)
    ensures AllReadableFields(Fields(doc, expanding, properties, depth))
    decreases Left(depth), 10, |properties|
  {
    if properties != [] {
      CleanIsReadable(doc, expanding, properties[0].schema, depth);
      PropertyNameIsKey(properties[0].name);
      FieldsAreReadable(doc, expanding, properties[1..], depth);
    }
  }

  /** Clean schemas read back, whatever references and nesting they hold. */
  lemma CleanSchemaReadsBack(doc: Document, schema: Schema)
    requires CleanDocument(doc) && Clean(schema)
    ensures ParseType(Render(doc, schema)) == Ok(TypeTree(doc, {}, schema, 0), "")
  {
    CleanIsReadable(doc, {}, schema, 0);
    RenderedTypeReadsBack(doc, schema);
  }

  const NO_KEYWORDS := Keywords(None, None, NoType, false, [], NoExtra, false, false, [], None, [], [], [], false)

  /** The schema's own type prints as nothing exactly when it is a type array without a name; inside an
      array that prints the empty tuple. */
  lemma EmptyTypeArrayPrintsNothing(doc: Document, expanding: set<string>, k: Keywords, depth: nat)
    requires depth <= MAX_DEPTH && CleanDocument(doc) && Clean(Node(k.(names := NoType)))
    ensures Core(doc, expanding, k, depth) == Some("")
            <==> k.constant == None && k.enumeration == None && k.names == ManyNames([])
    ensures Render(doc, Node(NO_KEYWORDS.(names := ManyNames([])))) == ""
    ensures ParseType(Render(doc, Node(NO_KEYWORDS.(names := OneName(ArrayName),
                                                    items := Some(Node(NO_KEYWORDS.(names := ManyNames([]))))))))
            == Ok(Tuple([]), "")
  {
    CoreIsPrint(doc, expanding, k, depth);
    if k.constant.Some? || k.enumeration.Some? || k.names != ManyNames([]) {
      if k.names == ManyNames([]) {
        var k' := k.(names := NoType);
        assert Clean(Node(k'));
        CoreIsReadable(doc, expanding, k', depth);
        assert CoreTree(doc, expanding, k, depth) == CoreTree(doc, expanding, k', depth);
      } else {
        assert Clean(Node(k));
        CoreIsReadable(doc, expanding, k, depth);
      }
      var tree := CoreTree(doc, expanding, k, depth);
      if tree.Some? { PrintStart(tree.value); }
    }
    var empty := Node(NO_KEYWORDS.(names := ManyNames([])));
    EmptyTypeArrayText(doc, {}, 0);
    EmptyTypeArrayText(doc, {}, 1);
    ArrayOfEmptyText(doc, empty);
    PrintedTypeReadsBack(Tuple([]));
    assert Print(Tuple([])) == "[" + "" + "]" == "[]";
  }

  lemma EmptyTypeArrayText(doc: Document, expanding: set<string>, depth: nat)
    requires depth <= MAX_DEPTH
    ensures Type(doc, expanding, Node(NO_KEYWORDS.(names := ManyNames([]))), depth) == ""
  {
    var k := NO_KEYWORDS.(names := ManyNames([]));
    assert NamedAll(doc, expanding, [], k, depth) == [];
    assert Core(doc, expanding, k, depth) == Some("");
    assert Parts(Some(""), [], [], []) == [""];
  }

  lemma ArrayOfEmptyText(doc: Document, empty: Schema)
    requires Type(doc, {}, empty, 1) == ""
    ensures Render(doc, Node(NO_KEYWORDS.(names := OneName(ArrayName), items := Some(empty)))) == "[]"
  {
    var k := NO_KEYWORDS.(names := OneName(ArrayName), items := Some(empty));
    assert ArrayText(doc, {}, k, 0) == "" + "[]" == "[]";
    assert Core(doc, {}, k, 0) == Some("[]");
    assert Parts(Some("[]"), [], [], []) == ["[]"];
  }
}
