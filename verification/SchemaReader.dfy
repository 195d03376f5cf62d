/** The keyword lookups that turn a JSON schema document into the schemas the renderer walks. */
module SchemaReader {
  import opened Wrappers
  import opened JsonTree
  import opened TypeText
  import opened TypeScriptPrinter

  /** The last definition of a property wins. */
  function Get(ms: seq<Member>, name: string): (r: Option<Json>)
    ensures r.Some? <==> exists i | 0 <= i < |ms| :: ms[i].key == name
    ensures r.Some? ==> exists i | 0 <= i < |ms| :: ms[i].value == r.value && ms[i].key == name
                                                    && forall j | i < j < |ms| :: ms[j].key != name
  {
    if ms == [] then None
    else
      var last := ms[|ms| - 1];
      if last.key == name then Some(last.value) else Get(ms[..|ms| - 1], name)
  }

  function NameOf(name: string): TypeName {
    if name == "string" then StringName
    else if name == "number" || name == "integer" then NumberName
    else if name == "boolean" then BooleanName
    else if name == "null" then NullName
    else if name == "array" then ArrayName
    else if name == "object" then ObjectName
    else OtherName
  }

  function StringNames(names: seq<Json>): seq<TypeName> {
    if names == [] then []
    else (if names[0].JString? then [NameOf(names[0].s)] else []) + StringNames(names[1..])
  }

  function Items(j: Option<Json>): seq<Json> { if j.Some? && j.value.JArray? then j.value.items else [] }

  function InsertProperty(p: Property, ps: seq<Property>): seq<Property> {
    if ps == [] || KeyLe(p.name, ps[0].name) then [p] + ps else [ps[0]] + InsertProperty(p, ps[1..])
  }

  function ViewProperties(ms: seq<Member>, required: seq<Json>): seq<Property>
    decreases ms, 1
  {
    if ms == [] then []
    else InsertProperty(Property(ms[0].key, JString(ms[0].key) in required, View(ms[0].value)),
                        ViewProperties(ms[1..], required))
  }

  function ViewAll(schemas: seq<Json>): seq<Schema>
    decreases schemas, 1
  {
    if schemas == [] then [] else [View(schemas[0])] + ViewAll(schemas[1..])
  }

  function ViewList(ms: seq<Member>, name: string): seq<Schema>
    decreases ms, 1
  {
    var list := Get(ms, name);
    if list.Some? && list.value.JArray? then ViewAll(list.value.items) else []
  }

  /** The lookups the renderer makes in one JSON schema. */
  function View(j: Json): Schema
    decreases j, 0
  {
    match j
    case JBool(false) => Never
    case JObject(ms) =>
      var reference := Get(ms, "$ref");
      if reference.Some? && reference.value.JString? then Ref(reference.value.s) else Node(ViewKeywords(ms))
    case _ => Anything
  }

  function ViewKeywords(ms: seq<Member>): Keywords
    decreases ms, 2
  {
    var enumeration, names := Get(ms, "enum"), Get(ms, "type");
    var properties, extra := Get(ms, "properties"), Get(ms, "additionalProperties");
    var prefix, items := Get(ms, "prefixItems"), Get(ms, "items");
    Keywords(
      Get(ms, "const"),
      if enumeration.Some? && enumeration.value.JArray? then Some(enumeration.value.items) else None,
      if names.Some? && names.value.JString? then OneName(NameOf(names.value.s))
      else if names.Some? && names.value.JArray? then ManyNames(StringNames(names.value.items)) else NoType,
      properties.Some? || extra.Some?,
      if properties.Some? && properties.value.JObject?
      then ViewProperties(properties.value.members, Items(Get(ms, "required"))) else [],
      if extra == Some(JBool(false)) then Closed
      else if extra.Some? && (extra.value.JObject? || extra.value == JBool(true))
      then Open(View(extra.value)) else NoExtra,
      items.Some? || prefix.Some?,
      (prefix.Some? && prefix.value.JArray?) || (items.Some? && items.value.JArray?),
      if prefix.Some? && prefix.value.JArray? then ViewList(ms, "prefixItems") else ViewList(ms, "items"),
      if items.Some? then Some(View(items.value)) else None,
      ViewList(ms, "anyOf"), ViewList(ms, "oneOf"), ViewList(ms, "allOf"),
      Get(ms, "nullable") == Some(JBool(true)))
  }

  // ---------- References ----------

  /** Percent decoding and the parsing of array indices. */
  datatype Reader = Reader(decode: string -> string, index: string -> Option<int>)

  function FirstPart(s: string): (r: string)
    ensures r <= s && '/' !in r && (|r| < |s| ==> s[|r|] == '/')
  {
    if s == "" || s[0] == '/' then ""
    else
      var r := FirstPart(s[1..]);
      assert s == [s[0]] + s[1..];
      [s[0]] + r
  }

  /** The parts between slashes; empty ones are dropped. */
  function Segments(s: string): seq<string>
    decreases |s|
  {
    if s == "" then []
    else
      var part := FirstPart(s);
      var rest := if |part| == |s| then "" else s[|part| + 1..];
      (if part == "" then [] else [part]) + Segments(rest)
  }

  /** A tilde followed by `digit` becomes `put`. */
  function ReplaceTilde(s: string, digit: char, put: char): string {
    if s == "" then ""
    else if |s| >= 2 && s[0] == '~' && s[1] == digit then [put] + ReplaceTilde(s[2..], digit, put)
    else [s[0]] + ReplaceTilde(s[1..], digit, put)
  }

  function Unescaped(s: string): string { ReplaceTilde(ReplaceTilde(s, '1', '/'), '0', '~') }

  /** The walk from the root along the segments. */
  function Walk(reader: Reader, target: Json, segments: seq<string>): Option<Json>
    decreases |segments|
  {
    if segments == [] then Some(target)
    else
      var name := Unescaped(reader.decode(segments[0]));
      match target
      case JObject(ms) =>
        (match Get(ms, name) case None => None case Some(child) => Walk(reader, child, segments[1..]))
      case JArray(items) =>
        (match reader.index(name)
         case None => None
         case Some(i) => if 0 <= i < |items| then Walk(reader, items[i], segments[1..]) else None)
      case _ => None
  }

  function Resolve(reader: Reader, root: Json, reference: string): Option<Json> {
    if reference == "" then None else Walk(reader, root, Segments(reference[1..]))
  }

  /** A document by its root. */
  function DocumentOf(reader: Reader, root: Json): Document {
    Document((reference: string) =>
      match Resolve(reader, root, reference) case None => None case Some(target) => Some(View(target)))
  }

  /** The escapes of RFC 6901, section 3. */
  function EscapedName(name: string): string {
    if name == "" then ""
    else (if name[0] == '~' then "~0" else if name[0] == '/' then "~1" else [name[0]]) + EscapedName(name[1..])
  }

  function TildesEscaped(name: string): string {
    if name == "" then "" else (if name[0] == '~' then "~0" else [name[0]]) + TildesEscaped(name[1..])
  }

  lemma EscapedTildeStays(rest: string)
    ensures ReplaceTilde("~0" + rest, '1', '/') == "~0" + ReplaceTilde(rest, '1', '/')
  {
    var s := "~0" + rest;
    assert s[1..] == "0" + rest && s[1..][1..] == rest;
    assert ReplaceTilde(s[1..], '1', '/') == ['0'] + ReplaceTilde(rest, '1', '/');
    assert ['~'] + (['0'] + ReplaceTilde(rest, '1', '/')) == "~0" + ReplaceTilde(rest, '1', '/');
  }

  lemma {:induction false} SlashesFirst(name: string)
    ensures ReplaceTilde(EscapedName(name), '1', '/') == TildesEscaped(name)
  {
    if name != "" {
      var rest := EscapedName(name[1..]);
      SlashesFirst(name[1..]);
      if name[0] == '~' {
        EscapedTildeStays(rest);
      } else if name[0] == '/' {
        assert ("~1" + rest)[2..] == rest;
      } else {
        assert ([name[0]] + rest)[1..] == rest;
      }
    }
  }

  lemma {:induction false} TildesLast(name: string)
    ensures ReplaceTilde(TildesEscaped(name), '0', '~') == name
  {
    if name != "" {
      var rest := TildesEscaped(name[1..]);
      TildesLast(name[1..]);
      if name[0] == '~' {
        assert ("~0" + rest)[2..] == rest;
      } else {
        assert ([name[0]] + rest)[1..] == rest;
      }
      assert name == [name[0]] + name[1..];
    }
  }

  /** An escaped name is read back: slashes are put back before tildes. */
  lemma EscapedNameReadsBack(name: string)
    ensures Unescaped(EscapedName(name)) == name
  {
    SlashesFirst(name);
    TildesLast(name);
  }

  /** The reference to a place in the document, each name escaped and then percent-encoded. */
  function ReferenceTo(encode: string -> string, path: seq<string>): string {
    if path == [] then "" else "/" + encode(EscapedName(path[0])) + ReferenceTo(encode, path[1..])
  }

  /** The place a path of names leads to. */
  function Lookup(index: string -> Option<int>, target: Json, path: seq<string>): Option<Json>
    decreases |path|
  {
    if path == [] then Some(target)
    else match target
      case JObject(ms) =>
        (match Get(ms, path[0]) case None => None case Some(child) => Lookup(index, child, path[1..]))
      case JArray(items) =>
        (match index(path[0])
         case None => None
         case Some(i) => if 0 <= i < |items| then Lookup(index, items[i], path[1..]) else None)
      case _ => None
  }

  /** Percent-encoding that the reader undoes and that yields no slash and no empty text from a name. */
  ghost predicate Encodes(encode: string -> string, reader: Reader, name: string) {
    var text := encode(EscapedName(name));
    reader.decode(text) == EscapedName(name) && text != "" && '/' !in text
  }

  lemma LeadingSlash(s: string)
    ensures Segments("/" + s) == Segments(s)
  {
    assert ("/" + s)[1..] == s;
    assert [] + Segments(s) == Segments(s);
  }

  lemma TakeSegment(s: string, more: string)
    requires s != "" && FirstPart(s) != "" && more == if |FirstPart(s)| == |s| then "" else s[|FirstPart(s)| + 1..]
    ensures Segments(s) == [FirstPart(s)] + Segments(more)
  {
  }

  lemma OnlySegment(part: string)
    requires part != "" && '/' !in part
    ensures Segments(part) == [part]
  {
    FirstPartOf(part, "");
    assert part + "" == part;
    TakeSegment(part, "");
  }

  lemma SegmentAndMore(part: string, more: string)
    requires part != "" && '/' !in part
    ensures Segments(part + ("/" + more)) == [part] + Segments(more)
  {
    var s := part + ("/" + more);
    FirstPartOf(part, "/" + more);
    assert |s| == |part| + 1 + |more| && s[|part| + 1..] == more;
    TakeSegment(s, more);
  }

  lemma FirstSegment(part: string, rest: string)
    requires part != "" && '/' !in part && (rest == "" || rest[0] == '/')
    ensures Segments(part + rest) == [part] + Segments(rest)
  {
    if rest == "" {
      OnlySegment(part);
      assert part + rest == part && Segments(rest) == [];
    } else {
      assert rest == "/" + rest[1..];
      SegmentAndMore(part, rest[1..]);
      LeadingSlash(rest[1..]);
    }
  }

  lemma {:induction false} FirstPartOf(part: string, rest: string)
    requires '/' !in part && (rest == "" || rest[0] == '/')
    ensures FirstPart(part + rest) == part
  {
    if part == "" {
      assert part + rest == rest;
    } else {
      assert part[0] in part;
      assert (part + rest)[1..] == part[1..] + rest;
      FirstPartOf(part[1..], rest);
    }
  }

  function EncodedNames(encode: string -> string, path: seq<string>): seq<string> {
    seq(|path|, i requires 0 <= i < |path| => encode(EscapedName(path[i])))
  }

  lemma SlashAndSegment(part: string, rest: string)
    requires part != "" && '/' !in part && (rest == "" || rest[0] == '/')
    ensures Segments("/" + part + rest) == [part] + Segments(rest)
  {
    Assoc("/", part, rest);
    LeadingSlash(part + rest);
    FirstSegment(part, rest);
  }

  lemma {:induction false} SegmentsOfReference(reader: Reader, encode: string -> string, path: seq<string>)
    requires forall i | 0 <= i < |path| :: Encodes(encode, reader, path[i])
    ensures Segments(ReferenceTo(encode, path)) == EncodedNames(encode, path)
    decreases |path|
  {
    if path != [] {
      var part, rest := encode(EscapedName(path[0])), ReferenceTo(encode, path[1..]);
      assert Encodes(encode, reader, path[0]);
      SegmentsOfReference(reader, encode, path[1..]);
      SlashAndSegment(part, rest);
      assert EncodedNames(encode, path) == [part] + EncodedNames(encode, path[1..]);
    }
  }

  lemma {:induction false} WalkIsLookup(reader: Reader, encode: string -> string, target: Json, path: seq<string>)
    requires forall i | 0 <= i < |path| :: Encodes(encode, reader, path[i])
    ensures Walk(reader, target, EncodedNames(encode, path)) == Lookup(reader.index, target, path)
    decreases |path|
  {
    if path != [] {
      assert Encodes(encode, reader, path[0]);
      EscapedNameReadsBack(path[0]);
      assert EncodedNames(encode, path)[1..] == EncodedNames(encode, path[1..]);
      match target
      case JObject(ms) =>
        if Get(ms, path[0]).Some? { WalkIsLookup(reader, encode, Get(ms, path[0]).value, path[1..]); }
      case JArray(items) =>
        var i := reader.index(path[0]);
        if i.Some? && 0 <= i.value < |items| { WalkIsLookup(reader, encode, items[i.value], path[1..]); }
      case _ =>
    }
  }

  /** A reference made from a path of names leads where the path leads, whatever characters the names hold. */
  lemma ReferenceFindsItsPlace(reader: Reader, encode: string -> string, root: Json, path: seq<string>)
    requires forall i | 0 <= i < |path| :: Encodes(encode, reader, path[i])
    ensures Resolve(reader, root, "#" + ReferenceTo(encode, path)) == Lookup(reader.index, root, path)
  {
    SegmentsOfReference(reader, encode, path);
    WalkIsLookup(reader, encode, root, path);
    assert ("#" + ReferenceTo(encode, path))[1..] == ReferenceTo(encode, path);
  }

  // ---------- Documents that read back ----------

  predicate NamesAType(t: Option<Json>) {
    t.Some? && t.value.JArray? ==> exists i | 0 <= i < |t.value.items| :: t.value.items[i].JString?
  }

  predicate CleanKeys(p: Option<Json>) {
    p.Some? && p.value.JObject? ==> forall i | 0 <= i < |p.value.members| :: CleanName(p.value.members[i].key)
  }

  /** Nowhere in the document a `type` array without a string, nor a property that is an identifier followed
      by a line feed. */
  ghost predicate CleanJson(j: Json) {
    match j
    case JArray(items) => forall i | 0 <= i < |items| :: CleanJson(items[i])
    case JObject(ms) =>
      NamesAType(Get(ms, "type")) && CleanKeys(Get(ms, "properties"))
      && forall i | 0 <= i < |ms| :: CleanJson(ms[i].value)
    case _ => true
  }

  lemma CleanInside(ms: seq<Member>, name: string)
    requires CleanJson(JObject(ms)) && Get(ms, name).Some?
    ensures CleanJson(Get(ms, name).value)
  {
  }

  lemma {:induction false} SomeStringName(names: seq<Json>)
    requires exists i | 0 <= i < |names| :: names[i].JString?
    ensures StringNames(names) != []
  {
    if !names[0].JString? {
      var i :| 0 <= i < |names| && names[i].JString?;
      assert names[1..][i - 1] == names[i];
      SomeStringName(names[1..]);
    }
  }

  lemma {:induction false} InsertedProperty(p: Property, ps: seq<Property>)
    ensures forall q :: q in InsertProperty(p, ps) <==> q == p || q in ps
  {
    if ps != [] {
      InsertedProperty(p, ps[1..]);
      assert ps == [ps[0]] + ps[1..];
    }
  }

  lemma {:induction false} PropertiesAreClean(ms: seq<Member>, required: seq<Json>)
    requires forall i | 0 <= i < |ms| :: CleanName(ms[i].key) && CleanJson(ms[i].value)
    ensures forall p :: p in ViewProperties(ms, required) ==> CleanName(p.name) && Clean(p.schema)
    decreases ms, 1
  {
    if ms != [] {
      ViewIsClean(ms[0].value);
      PropertiesAreClean(ms[1..], required);
      InsertedProperty(Property(ms[0].key, JString(ms[0].key) in required, View(ms[0].value)),
                       ViewProperties(ms[1..], required));
    }
  }

  ghost predicate AllClean(schemas: seq<Schema>) { forall i | 0 <= i < |schemas| :: Clean(schemas[i]) }

  lemma {:induction false} ViewsAreClean(schemas: seq<Json>)
    requires forall i | 0 <= i < |schemas| :: CleanJson(schemas[i])
    ensures AllClean(ViewAll(schemas))
    decreases schemas, 1
  {
    if schemas != [] {
      ViewIsClean(schemas[0]);
      ViewsAreClean(schemas[1..]);
    }
  }

  /** What is looked up in a clean document is a clean schema. */
  lemma {:induction false} ViewIsClean(j: Json)
    requires CleanJson(j)
    ensures Clean(View(j))
    decreases j, 0
  {
    if j.JObject? && View(j).Node? {
      KeywordsAreClean(j.members);
    }
  }

  lemma {:induction false} ListIsClean(ms: seq<Member>, name: string)
    requires CleanJson(JObject(ms))
    ensures AllClean(ViewList(ms, name))
    decreases ms, 1
  {
    var list := Get(ms, name);
    if list.Some? && list.value.JArray? {
      CleanInside(ms, name);
      ViewsAreClean(list.value.items);
    }
  }

  lemma {:induction false} MemberIsClean(ms: seq<Member>, name: string)
    requires CleanJson(JObject(ms))
    ensures Get(ms, name).Some? ==> Clean(View(Get(ms, name).value))
    decreases ms, 1
  {
    if Get(ms, name).Some? {
      CleanInside(ms, name);
      ViewIsClean(Get(ms, name).value);
    }
  }

  lemma NamesAreClean(ms: seq<Member>)
    requires CleanJson(JObject(ms))
    ensures ViewKeywords(ms).names != ManyNames([])
  {
    var names := Get(ms, "type");
    if names.Some? && names.value.JArray? {
      SomeStringName(names.value.items);
    }
  }

  lemma {:induction false} OwnPropertiesAreClean(ms: seq<Member>)
    requires CleanJson(JObject(ms))
    ensures var ps := ViewKeywords(ms).properties;
            forall i | 0 <= i < |ps| :: CleanName(ps[i].name) && Clean(ps[i].schema)
    decreases ms, 2
  {
    var properties := Get(ms, "properties");
    if properties.Some? && properties.value.JObject? {
      CleanInside(ms, "properties");
      var required := Items(Get(ms, "required"));
      PropertiesAreClean(properties.value.members, required);
      var ps := ViewProperties(properties.value.members, required);
      assert forall i | 0 <= i < |ps| :: ps[i] in ps;
    }
  }

  lemma KeywordLists(ms: seq<Member>)
    ensures var k := ViewKeywords(ms);
            k.tuple in [ViewList(ms, "prefixItems"), ViewList(ms, "items")]
            && k.anyOf == ViewList(ms, "anyOf") && k.oneOf == ViewList(ms, "oneOf") && k.allOf == ViewList(ms, "allOf")
  {
  }

  lemma {:induction false} ElementsAreClean(ms: seq<Member>)
    requires CleanJson(JObject(ms))
    ensures var k := ViewKeywords(ms);
            (k.items.Some? ==> Clean(k.items.value)) && (k.extra.Open? ==> Clean(k.extra.extra))
    decreases ms, 2
  {
    MemberIsClean(ms, "items");
    MemberIsClean(ms, "additionalProperties");
  }

  lemma {:induction false} KeywordsAreClean(ms: seq<Member>)
    requires CleanJson(JObject(ms))
    ensures Clean(Node(ViewKeywords(ms)))
    decreases ms, 3
  {
    NamesAreClean(ms);
    OwnPropertiesAreClean(ms);
    ElementsAreClean(ms);
    ListIsClean(ms, "prefixItems");
    ListIsClean(ms, "items");
    ListIsClean(ms, "anyOf");
    ListIsClean(ms, "oneOf");
    ListIsClean(ms, "allOf");
    KeywordLists(ms);
    CleanByParts(ViewKeywords(ms));
  }

  lemma CleanByParts(k: Keywords)
    requires k.names != ManyNames([])
    requires forall i | 0 <= i < |k.properties| :: CleanName(k.properties[i].name) && Clean(k.properties[i].schema)
    requires (k.items.Some? ==> Clean(k.items.value)) && (k.extra.Open? ==> Clean(k.extra.extra))
    requires AllClean(k.tuple) && AllClean(k.anyOf) && AllClean(k.oneOf) && AllClean(k.allOf)
    ensures Clean(Node(k))
  {
  }

  /** A walk stays inside the document. */
  lemma {:induction false} WalkStaysClean(reader: Reader, target: Json, segments: seq<string>)
    requires CleanJson(target)
    ensures Walk(reader, target, segments).Some? ==> CleanJson(Walk(reader, target, segments).value)
    decreases |segments|
  {
    if segments != [] {
      var name := Unescaped(reader.decode(segments[0]));
      match target
      case JObject(ms) =>
        if Get(ms, name).Some? {
          CleanInside(ms, name);
          WalkStaysClean(reader, Get(ms, name).value, segments[1..]);
        }
      case JArray(items) =>
        var i := reader.index(name);
        if i.Some? && 0 <= i.value < |items| { WalkStaysClean(reader, items[i.value], segments[1..]); }
      case _ =>
    }
  }

  lemma DocumentIsClean(reader: Reader, root: Json)
    requires CleanJson(root)
    ensures CleanDocument(DocumentOf(reader, root))
  {
    var doc := DocumentOf(reader, root);
    forall reference: string | doc.resolve(reference).Some?
      ensures Clean(doc.resolve(reference).value)
    {
      WalkStaysClean(reader, root, Segments(reference[1..]));
      ViewIsClean(Resolve(reader, root, reference).value);
    }
  }

  /** Every clean document reads back, whatever references it holds. */
  lemma CleanDocumentReadsBack(reader: Reader, root: Json)
    requires CleanJson(root)
    ensures var doc := DocumentOf(reader, root);
            ParseType(Render(doc, View(root))) == Ok(TypeTree(doc, {}, View(root), 0), "")
  {
    DocumentIsClean(reader, root);
    ViewIsClean(root);
    CleanSchemaReadsBack(DocumentOf(reader, root), View(root));
  }

  /** Whatever document is rendered, the operator scan is exact on the text, and the text reads back as its
      type tree exactly when that tree is readable. */
  lemma RenderedDocument(reader: Reader, root: Json)
    ensures var doc, schema := DocumentOf(reader, root), View(root);
            var text, tree := Render(doc, schema), TypeTree(doc, {}, schema, 0);
            (TopOperator(text, 0, false) <==> IsOp(tree))
            && (ParseType(text) == Ok(tree, "") <==> Readable(tree))
  {
    RenderedScanIsExact(DocumentOf(reader, root), View(root));
    RenderedTypeReadsBack(DocumentOf(reader, root), View(root));
  }
}
