/** Printed TypeScript types: their trees, their text, and a reader for the text. */
module TypeText {
  import opened Wrappers

  /** Blank is the tree of an empty text. */
  datatype Ty =
    | Blank
    | Word(text: string)
    | Quoted(raw: string)
    | OpenRecord
    | Object(fields: seq<Field>)
    | Tuple(items: seq<Ty>)
    | Arr(elem: Ty)
    | Union(parts: seq<Ty>)
    | Inter(parts: seq<Ty>)

  datatype Field = Prop(key: string, optional: bool, ty: Ty) | Index(ty: Ty)

  predicate IsOp(t: Ty) { t.Union? || t.Inter? }

  // ---------- Printing a tree ----------

  const RECORD := "Record"
  const RECORD_ARGUMENTS := "<string, unknown>"
  const OPEN_RECORD := RECORD + RECORD_ARGUMENTS

  function Print(t: Ty): string
    decreases t, 1
  {
    match t
    case Blank => ""
    case Word(w) => w
    case Quoted(raw) => raw
    case OpenRecord => OPEN_RECORD
    case Object(fs) => if fs == [] then "{}" else "{ " + PrintFields(fs) + " }"
    case Tuple(items) => "[" + PrintItems(items) + "]"
    case Arr(e) => Group(e) + "[]"
    case Union(ps) => PrintParts(ps, '|')
    case Inter(ps) => PrintParts(ps, '&')
  }

  /** Unions and intersections are parenthesised inside arrays, unions and intersections. */
  function Group(t: Ty): string
    decreases t, 2
  {
    if IsOp(t) then "(" + Print(t) + ")" else Print(t)
  }

  function PrintParts(ps: seq<Ty>, op: char): string
    decreases ps, 0
  {
    if ps == [] then ""
    else if |ps| == 1 then Group(ps[0])
    else Group(ps[0]) + [' ', op, ' '] + PrintParts(ps[1..], op)
  }

  function PrintItems(items: seq<Ty>): string
    decreases items, 0
  {
    if items == [] then ""
    else if |items| == 1 then Print(items[0])
    else Print(items[0]) + ", " + PrintItems(items[1..])
  }

  function PrintKey(f: Field): string {
    match f
    case Prop(key, optional, _) => key + (if optional then "?" else "") + ": "
    case Index(_) => "[key: string]: "
  }

  function PrintField(f: Field): string
    decreases f, 3
  {
    PrintKey(f) + Print(f.ty)
  }

  function PrintFields(fs: seq<Field>): string
    decreases fs, 4
  {
    if fs == [] then ""
    else if |fs| == 1 then PrintField(fs[0])
    else PrintField(fs[0]) + "; " + PrintFields(fs[1..])
  }

  // ---------- Which texts words and literals have ----------

  predicate NameChar(c: char) {
    'a' <= c <= 'z' || 'A' <= c <= 'Z' || '0' <= c <= '9' || c == '_' || c == '$' || c == '-' || c == '+' || c == '.'
  }

  predicate IsName(s: string) { s != [] && forall i | 0 <= i < |s| :: NameChar(s[i]) }

  /** Length up to and including the closing quote; a backslash takes the next character with it. */
  function BodyLength(s: string): (n: Option<nat>)
    ensures n.Some? ==> 0 < n.value <= |s|
  {
    if s == [] then None
    else if s[0] == '\\' then
      if |s| == 1 then None
      else match BodyLength(s[2..]) case Some(n) => Some(n + 2) case None => None
    else if s[0] == '"' then Some(1)
    else match BodyLength(s[1..]) case Some(n) => Some(n + 1) case None => None
  }

  predicate IsQuoted(raw: string) {
    |raw| >= 2 && raw[0] == '"' && BodyLength(raw[1..]) == Some(|raw| - 1)
  }

  /** A key may also be a name with one line feed after it, as the identifier pattern accepts it. */
  predicate PrintableKey(key: string) {
    IsName(key) || IsQuoted(key) || (key != [] && key[|key| - 1] == '\n' && IsName(key[..|key| - 1]))
  }

  /** Trees the renderer builds. */
  predicate Printable(t: Ty)
    decreases t
  {
    match t
    case Word(w) => IsName(w)
    case Quoted(raw) => IsQuoted(raw)
    case Object(fs) =>
      forall i | 0 <= i < |fs| :: (fs[i].Prop? ==> PrintableKey(fs[i].key)) && Printable(fs[i].ty)
    case Tuple(items) => forall i | 0 <= i < |items| :: Printable(items[i])
    case Arr(e) => Printable(e)
    case Union(ps) => |ps| >= 2 && forall i | 0 <= i < |ps| :: Printable(ps[i])
    case Inter(ps) => |ps| >= 2 && forall i | 0 <= i < |ps| :: Printable(ps[i])
    case _ => true
  }

  /** Printable trees without blanks and without line feeds in keys. */
  predicate Readable(t: Ty)
    decreases t
  {
    match t
    case Blank => false
    case Word(w) => IsName(w)
    case Quoted(raw) => IsQuoted(raw)
    case OpenRecord => true
    case Object(fs) =>
      forall i | 0 <= i < |fs| :: (fs[i].Prop? ==> IsName(fs[i].key) || IsQuoted(fs[i].key)) && Readable(fs[i].ty)
    case Tuple(items) => forall i | 0 <= i < |items| :: Readable(items[i])
    case Arr(e) => Readable(e)
    case Union(ps) => |ps| >= 2 && forall i | 0 <= i < |ps| :: Readable(ps[i])
    case Inter(ps) => |ps| >= 2 && forall i | 0 <= i < |ps| :: Readable(ps[i])
  }

  // ---------- The operator scan ----------

  predicate Opens(c: char) { c == '{' || c == '[' || c == '(' || c == '<' }
  predicate Closes(c: char) { c == '}' || c == ']' || c == ')' || c == '>' }

  /** Is there a '|' or '&' outside quotes at bracket depth zero? */
  function TopOperator(s: string, depth: int, quoted: bool): bool {
    if s == [] then false
    else if quoted then
      if s[0] == '\\' then |s| >= 2 && TopOperator(s[2..], depth, true)
      else TopOperator(s[1..], depth, s[0] != '"')
    else if s[0] == '"' then TopOperator(s[1..], depth, true)
    else if Opens(s[0]) then TopOperator(s[1..], depth + 1, false)
    else if Closes(s[0]) then TopOperator(s[1..], depth - 1, false)
    else if (s[0] == '|' || s[0] == '&') && depth == 0 then true
    else TopOperator(s[1..], depth, false)
  }

  /** The scanning loop. */
  method HasTopLevelOperator(ty: string) returns (found: bool)
    ensures found == TopOperator(ty, 0, false)
  {
    var depth := 0;
    var quoted := false;
    var index := 0;
    while index < |ty|
      invariant 0 <= index <= |ty| + 1
      invariant TopOperator(ty, 0, false) == (index <= |ty| && TopOperator(ty[index..], depth, quoted))
    {
      var character := ty[index];
      assert ty[index..][1..] == ty[index + 1..];
      if quoted {
        if character == '\\' {
          if index + 1 < |ty| { assert ty[index..][2..] == ty[index + 2..]; }
          index := index + 1;
        } else if character == '"' {
          quoted := false;
        }
      } else if character == '"' {
        quoted := true;
      } else if Opens(character) {
        depth := depth + 1;
      } else if Closes(character) {
        depth := depth - 1;
      } else if (character == '|' || character == '&') && depth == 0 {
        return true;
      }
      index := index + 1;
    }
    return false;
  }

  predicate Plain(c: char) {
    c != '"' && !Opens(c) && !Closes(c) && c != '|' && c != '&'
  }

  lemma {:induction false} ScanPlain(w: string, rest: string, depth: int)
    requires forall i | 0 <= i < |w| :: Plain(w[i])
    ensures TopOperator(w + rest, depth, false) == TopOperator(rest, depth, false)
  {
    if w == [] {
      assert w + rest == rest;
    } else {
      assert (w + rest)[1..] == w[1..] + rest;
      ScanPlain(w[1..], rest, depth);
    }
  }

  lemma {:induction false} ScanBody(body: string, rest: string, depth: int)
    requires BodyLength(body) == Some(|body|)
    ensures TopOperator(body + rest, depth, true) == TopOperator(rest, depth, false)
  {
    if body[0] == '\\' {
      assert (body + rest)[2..] == body[2..] + rest;
      ScanBody(body[2..], rest, depth);
    } else if body[0] == '"' {
      assert (body + rest)[1..] == rest;
    } else {
      assert (body + rest)[1..] == body[1..] + rest;
      ScanBody(body[1..], rest, depth);
    }
  }

  lemma ScanQuoted(raw: string, rest: string, depth: int)
    requires IsQuoted(raw)
    ensures TopOperator(raw + rest, depth, false) == TopOperator(rest, depth, false)
  {
    assert (raw + rest)[1..] == raw[1..] + rest;
    ScanBody(raw[1..], rest, depth);
  }

  lemma ScanBracketed(open: char, inner: string, close: char, rest: string, depth: int)
    requires Opens(open) && Closes(close)
    requires TopOperator(inner + ([close] + rest), depth + 1, false) == TopOperator([close] + rest, depth + 1, false)
    ensures TopOperator([open] + inner + [close] + rest, depth, false) == TopOperator(rest, depth, false)
  {
    var all := [open] + inner + [close] + rest;
    assert all[1..] == inner + ([close] + rest);
    assert ([close] + rest)[1..] == rest;
  }

  lemma ScanPlainBracketed(open: char, inner: string, close: char, rest: string, depth: int)
    requires Opens(open) && Closes(close) && forall i | 0 <= i < |inner| :: Plain(inner[i])
    ensures TopOperator([open] + inner + [close] + rest, depth, false) == TopOperator(rest, depth, false)
  {
    ScanPlain(inner, [close] + rest, depth + 1);
    ScanBracketed(open, inner, close, rest, depth);
  }

  lemma ScanRecord(rest: string, depth: int)
    ensures TopOperator(OPEN_RECORD + rest, depth, false) == TopOperator(rest, depth, false)
  {
    var tail := ['<'] + "string, unknown" + ['>'] + rest;
    ScanPlainBracketed('<', "string, unknown", '>', rest, depth);
    ScanPlain(RECORD, tail, depth);
    assert OPEN_RECORD + rest == RECORD + tail;
  }

  lemma ScanEmptyPair(open: char, close: char, rest: string, depth: int)
    requires Opens(open) && Closes(close)
    ensures TopOperator([open, close] + rest, depth, false) == TopOperator(rest, depth, false)
  {
    ScanPlainBracketed(open, [], close, rest, depth);
    assert [open, close] + rest == [open] + [] + [close] + rest;
  }

  lemma ScanBraces(inner: string, rest: string, depth: int)
    requires TopOperator(inner + (" " + (['}'] + rest)), depth + 1, false)
             == TopOperator(" " + (['}'] + rest), depth + 1, false)
    ensures TopOperator("{ " + inner + " }" + rest, depth, false) == TopOperator(rest, depth, false)
  {
    var close := ['}'] + rest;
    ScanPlain(" ", close, depth + 1);
    ScanPlain(" ", inner + (" " + close), depth + 1);
    var all := "{ " + inner + " }" + rest;
    assert all[1..] == " " + (inner + (" " + close));
    assert close[1..] == rest;
  }

  lemma ScanOperator(op: char, tail: string, depth: int)
    requires op == '|' || op == '&'
    ensures TopOperator([' ', op, ' '] + tail, depth, false) == (depth == 0 || TopOperator(tail, depth, false))
  {
    ScanPlain(" ", [op, ' '] + tail, depth);
    assert [' ', op, ' '] + tail == " " + ([op, ' '] + tail);
    assert ([op, ' '] + tail)[1..] == " " + tail;
    ScanPlain(" ", tail, depth);
  }

  lemma ScanIndexKey(rest: string, depth: int)
    ensures TopOperator("[key: string]: " + rest, depth, false) == TopOperator(rest, depth, false)
  {
    var tail := ": " + rest;
    ScanPlainBracketed('[', "key: string", ']', tail, depth);
    ScanPlain(": ", rest, depth);
    assert "[key: string]: " + rest == ['['] + "key: string" + [']'] + tail;
  }

  /** Scanning past a printed type meets an operator exactly when the type is one and the depth is zero. */
  lemma {:induction false} ScanType(t: Ty, rest: string, depth: nat)
    requires Printable(t)
    ensures TopOperator(Print(t) + rest, depth, false) == ((depth == 0 && IsOp(t)) || TopOperator(rest, depth, false))
    decreases t, 1
  {
    match t
    case Blank => assert "" + rest == rest;
    case Word(w) => ScanPlain(w, rest, depth);
    case Quoted(raw) => ScanQuoted(raw, rest, depth);
    case OpenRecord => ScanRecord(rest, depth);
    case Object(fs) =>
      if fs == [] {
        ScanEmptyPair('{', '}', rest, depth);
      } else {
        ScanFields(fs, " " + (['}'] + rest), depth + 1);
        ScanBraces(PrintFields(fs), rest, depth);
      }
    case Tuple(items) =>
      ScanItems(items, [']'] + rest, depth + 1);
      ScanBracketed('[', PrintItems(items), ']', rest, depth);
    case Arr(e) =>
      ScanEmptyPair('[', ']', rest, depth);
      ScanGroup(e, "[]" + rest, depth);
      Assoc(Group(e), "[]", rest);
    case Union(ps) => ScanParts(ps, '|', rest, depth);
    case Inter(ps) => ScanParts(ps, '&', rest, depth);
  }

  lemma {:induction false} ScanGroup(t: Ty, rest: string, depth: nat)
    requires Printable(t)
    ensures TopOperator(Group(t) + rest, depth, false) == TopOperator(rest, depth, false)
    decreases t, 2
  {
    if IsOp(t) {
      ScanType(t, [')'] + rest, depth + 1);
      ScanBracketed('(', Print(t), ')', rest, depth);
    } else {
      ScanType(t, rest, depth);
    }
  }

  lemma {:induction false} ScanParts(ps: seq<Ty>, op: char, rest: string, depth: nat)
    requires ps != [] && (op == '|' || op == '&') && forall i | 0 <= i < |ps| :: Printable(ps[i])
    ensures TopOperator(PrintParts(ps, op) + rest, depth, false)
            == ((depth == 0 && |ps| >= 2) || TopOperator(rest, depth, false))
    decreases ps, 0
  {
    if |ps| == 1 {
      ScanGroup(ps[0], rest, depth);
    } else {
      var head, sep, tail := Group(ps[0]), [' ', op, ' '], PrintParts(ps[1..], op);
      Assoc(head + sep, tail, rest);
      Assoc(head, sep, tail + rest);
      ScanGroup(ps[0], sep + (tail + rest), depth);
      ScanOperator(op, tail + rest, depth);
      ScanParts(ps[1..], op, rest, depth);
    }
  }

  lemma {:induction false} ScanItems(items: seq<Ty>, rest: string, depth: nat)
    requires depth > 0 && forall i | 0 <= i < |items| :: Printable(items[i])
    ensures TopOperator(PrintItems(items) + rest, depth, false) == TopOperator(rest, depth, false)
    decreases items, 0
  {
    if items == [] {
      assert "" + rest == rest;
    } else if |items| == 1 {
      ScanType(items[0], rest, depth);
    } else {
      var head, sep, tail := Print(items[0]), ", ", PrintItems(items[1..]);
      Assoc(head + sep, tail, rest);
      Assoc(head, sep, tail + rest);
      ScanType(items[0], sep + (tail + rest), depth);
      ScanPlain(sep, tail + rest, depth);
      ScanItems(items[1..], rest, depth);
    }
  }

  lemma ScanKey(f: Field, rest: string, depth: nat)
    requires f.Prop? ==> PrintableKey(f.key)
    ensures TopOperator(PrintKey(f) + rest, depth, false) == TopOperator(rest, depth, false)
  {
    if f.Index? {
      ScanIndexKey(rest, depth);
    } else {
      var mark := if f.optional then "?" else "";
      Assoc(f.key + mark, ": ", rest);
      Assoc(f.key, mark, ": " + rest);
      ScanPlain(": ", rest, depth);
      ScanPlain(mark, ": " + rest, depth);
      if IsQuoted(f.key) {
        ScanQuoted(f.key, mark + (": " + rest), depth);
      } else {
        ScanPlain(f.key, mark + (": " + rest), depth);
      }
    }
  }

  lemma {:induction false} ScanField(f: Field, rest: string, depth: nat)
    requires depth > 0 && (f.Prop? ==> PrintableKey(f.key)) && Printable(f.ty)
    ensures TopOperator(PrintField(f) + rest, depth, false) == TopOperator(rest, depth, false)
    decreases f, 0
  {
    Assoc(PrintKey(f), Print(f.ty), rest);
    ScanKey(f, Print(f.ty) + rest, depth);
    ScanType(f.ty, rest, depth);
  }

  lemma {:induction false} ScanFields(fs: seq<Field>, rest: string, depth: nat)
    requires depth > 0 && forall i | 0 <= i < |fs| :: (fs[i].Prop? ==> PrintableKey(fs[i].key)) && Printable(fs[i].ty)
    ensures TopOperator(PrintFields(fs) + rest, depth, false) == TopOperator(rest, depth, false)
    decreases fs, 0
  {
    if fs == [] {
      assert "" + rest == rest;
    } else if |fs| == 1 {
      ScanField(fs[0], rest, depth);
    } else {
      var head, sep, tail := PrintField(fs[0]), "; ", PrintFields(fs[1..]);
      Assoc(head + sep, tail, rest);
      Assoc(head, sep, tail + rest);
      ScanField(fs[0], sep + (tail + rest), depth);
      ScanPlain(sep, tail + rest, depth);
      ScanFields(fs[1..], rest, depth);
    }
  }

  /** The scan of a printed type finds an operator exactly when its root is a union or an intersection. */
  lemma OperatorScanIsExact(t: Ty)
    requires Printable(t)
    ensures TopOperator(Print(t), 0, false) <==> IsOp(t)
  {
    ScanType(t, "", 0);
    assert Print(t) + "" == Print(t);
  }

  // ---------- Reading the text back ----------

  datatype Parsed<+T> = Fail | Ok(value: T, rest: string)

  function NameLength(s: string): (n: nat)
    ensures n <= |s| && (forall i | 0 <= i < n :: NameChar(s[i])) && (n < |s| ==> !NameChar(s[n]))
  {
    if s == [] || !NameChar(s[0]) then 0 else 1 + NameLength(s[1..])
  }

  function ParseType(s: string): (r: Parsed<Ty>)
    ensures r.Ok? ==> |r.rest| < |s| && Readable(r.value)
    decreases |s|, 4
  {
    match ParseOperand(s)
    case Fail => Fail
    case Ok(t, rest) =>
      if " | " <= rest then
        (match ParseParts('|', rest) case Fail => Fail case Ok(ts, after) => Ok(Union([t] + ts), after))
      else if " & " <= rest then
        (match ParseParts('&', rest) case Fail => Fail case Ok(ts, after) => Ok(Inter([t] + ts), after))
      else Ok(t, rest)
  }

  /** One or more further operands, each after the operator. */
  function ParseParts(op: char, s: string): (r: Parsed<seq<Ty>>)
    requires [' ', op, ' '] <= s
    ensures r.Ok? ==> |r.rest| < |s| && r.value != [] && forall i | 0 <= i < |r.value| :: Readable(r.value[i])
    decreases |s|, 2
  {
    match ParseOperand(s[3..])
    case Fail => Fail
    case Ok(t, rest) =>
      if [' ', op, ' '] <= rest then
        (match ParseParts(op, rest) case Fail => Fail case Ok(ts, after) => Ok([t] + ts, after))
      else Ok([t], rest)
  }

  function ParseOperand(s: string): (r: Parsed<Ty>)
    ensures r.Ok? ==> |r.rest| < |s| && Readable(r.value)
    decreases |s|, 3
  {
    match ParsePrimary(s)
    case Fail => Fail
    case Ok(t, rest) => ParseSuffixes(t, rest)
  }

  function ParseSuffixes(t: Ty, s: string): (r: Parsed<Ty>)
    requires Readable(t)
    ensures r.Ok? && |r.rest| <= |s| && Readable(r.value)
    decreases |s|
  {
    if "[]" <= s then ParseSuffixes(Arr(t), s[2..]) else Ok(t, s)
  }

  function ParsePrimary(s: string): (r: Parsed<Ty>)
    ensures r.Ok? ==> |r.rest| < |s| && Readable(r.value)
    decreases |s|, 2
  {
    if s == [] then Fail
    else if s[0] == '(' then
      (match ParseType(s[1..]) case Fail => Fail
       case Ok(t, rest) => if ")" <= rest then Ok(t, rest[1..]) else Fail)
    else if "[]" <= s then Ok(Tuple([]), s[2..])
    else if s[0] == '[' then
      (match ParseItems(s[1..]) case Fail => Fail
       case Ok(ts, rest) => if "]" <= rest then Ok(Tuple(ts), rest[1..]) else Fail)
    else if "{}" <= s then Ok(Object([]), s[2..])
    else if "{ " <= s then
      (match ParseFields(s[2..]) case Fail => Fail
       case Ok(fs, rest) => if " }" <= rest then Ok(Object(fs), rest[2..]) else Fail)
    else if s[0] == '"' then
      (match BodyLength(s[1..]) case None => Fail
       case Some(n) => QuotedPrefix(s, n); Ok(Quoted(s[..n + 1]), s[n + 1..]))
    else
      var n := NameLength(s);
      if n == 0 then Fail
      else if s[..n] == RECORD && RECORD_ARGUMENTS <= s[n..] then Ok(OpenRecord, s[n + 17..])
      else Ok(Word(s[..n]), s[n..])
  }

  function ParseItems(s: string): (r: Parsed<seq<Ty>>)
    ensures r.Ok? ==> |r.rest| < |s| && forall i | 0 <= i < |r.value| :: Readable(r.value[i])
    decreases |s|, 5
  {
    match ParseType(s)
    case Fail => Fail
    case Ok(t, rest) =>
      if ", " <= rest then
        (match ParseItems(rest[2..]) case Fail => Fail case Ok(ts, after) => Ok([t] + ts, after))
      else Ok([t], rest)
  }

  function ParseFields(s: string): (r: Parsed<seq<Field>>)
    ensures r.Ok? ==> |r.rest| < |s| && r.value != [] && forall i | 0 <= i < |r.value| :: ReadableField(r.value[i])
    decreases |s|, 6
  {
    match ParseField(s)
    case Fail => Fail
    case Ok(f, rest) =>
      if "; " <= rest then
        (match ParseFields(rest[2..]) case Fail => Fail case Ok(fs, after) => Ok([f] + fs, after))
      else Ok([f], rest)
  }

  predicate ReadableField(f: Field) {
    (f.Prop? ==> IsName(f.key) || IsQuoted(f.key)) && Readable(f.ty)
  }

  function ParseField(s: string): (r: Parsed<Field>)
    ensures r.Ok? ==> |r.rest| < |s| && ReadableField(r.value)
    decreases |s|, 5
  {
    if "[key: string]: " <= s then
      (match ParseType(s[15..]) case Fail => Fail case Ok(t, rest) => Ok(Index(t), rest))
    else ParseProp(s)
  }

  function ParseProp(s: string): (r: Parsed<Field>)
    ensures r.Ok? ==> |r.rest| < |s| && ReadableField(r.value)
    decreases |s|, 0
  {
    var n := KeyLength(s);
    if n == 0 then Fail
    else
      var optional := "?" <= s[n..];
      var m := if optional then n + 1 else n;
      if ": " <= s[m..] then
        (match ParseType(s[m + 2..]) case Fail => Fail case Ok(t, rest) => Ok(Prop(s[..n], optional, t), rest))
      else Fail
  }

  function KeyLength(s: string): (n: nat)
    ensures n <= |s| && (n > 0 ==> IsName(s[..n]) || IsQuoted(s[..n]))
  {
    if s != [] && s[0] == '"' then
      match BodyLength(s[1..]) case None => 0 case Some(n) => QuotedPrefix(s, n); n + 1
    else NameLength(s)
  }

  lemma {:induction false} BodyLengthOfPrefix(s: string)
    requires BodyLength(s).Some?
    ensures BodyLength(s[..BodyLength(s).value]) == BodyLength(s)
  {
    var n := BodyLength(s).value;
    if s[0] == '\\' {
      BodyLengthOfPrefix(s[2..]);
      assert s[..n][2..] == s[2..][..n - 2];
    } else if s[0] != '"' {
      BodyLengthOfPrefix(s[1..]);
      assert s[..n][1..] == s[1..][..n - 1];
    }
  }

  lemma QuotedPrefix(s: string, n: nat)
    requires s != [] && s[0] == '"' && BodyLength(s[1..]) == Some(n)
    ensures IsQuoted(s[..n + 1])
  {
    BodyLengthOfPrefix(s[1..]);
    assert s[..n + 1][1..] == s[1..][..n];
  }

  lemma {:induction false} BodyLengthAppend(s: string, rest: string)
    requires BodyLength(s).Some?
    ensures BodyLength(s + rest) == BodyLength(s)
  {
    if s[0] == '\\' {
      BodyLengthAppend(s[2..], rest);
      assert (s + rest)[2..] == s[2..] + rest;
    } else if s[0] != '"' {
      BodyLengthAppend(s[1..], rest);
      assert (s + rest)[1..] == s[1..] + rest;
    }
  }

  lemma {:induction false} NameLengthAppend(w: string, rest: string)
    requires (forall i | 0 <= i < |w| :: NameChar(w[i])) && (rest != [] ==> !NameChar(rest[0]))
    ensures NameLength(w + rest) == |w|
  {
    if w == [] {
      assert w + rest == rest;
    } else {
      NameLengthAppend(w[1..], rest);
      assert (w + rest)[1..] == w[1..] + rest;
    }
  }

  /** What may follow a name: no name character, and not the bracket of an open record. */
  predicate AfterName(rest: string) { rest != [] ==> !NameChar(rest[0]) && rest[0] != '<' }

  /** What may follow an operand: also no array suffix. */
  predicate AfterOperand(rest: string) { AfterName(rest) && (rest != [] ==> rest[0] != '[') }

  /** What may follow a type: also no operator. */
  predicate AfterType(rest: string) { AfterOperand(rest) && !(" | " <= rest) && !(" & " <= rest) }

  lemma ReadWord(w: string, rest: string)
    requires IsName(w) && AfterName(rest)
    ensures ParsePrimary(w + rest) == Ok(Word(w), rest)
  {
    NameLengthAppend(w, rest);
    var s := w + rest;
    assert s[0] == w[0] && NameChar(s[0]);
    assert s[..|w|] == w && s[|w|..] == rest;
  }

  lemma RecordIsName()
    ensures IsName(RECORD)
  {
    assert RECORD == ['R', 'e', 'c', 'o', 'r', 'd'];
  }

  lemma ReadOpenRecord(rest: string)
    requires AfterName(rest)
    ensures ParsePrimary(OPEN_RECORD + rest) == Ok(OpenRecord, rest)
  {
    var behind := RECORD_ARGUMENTS + rest;
    RecordIsName();
    assert behind[0] == '<';
    NameLengthAppend(RECORD, behind);
    Assoc(RECORD, RECORD_ARGUMENTS, rest);
    var s := RECORD + behind;
    assert s[0] == 'R' && s[..6] == RECORD && s[6..] == behind;
    assert RECORD_ARGUMENTS <= behind && s[23..] == rest;
  }

  lemma ReadQuoted(raw: string, rest: string)
    requires IsQuoted(raw)
    ensures ParsePrimary(raw + rest) == Ok(Quoted(raw), rest)
  {
    var s := raw + rest;
    assert s[1..] == raw[1..] + rest;
    BodyLengthAppend(raw[1..], rest);
    assert s[..|raw|] == raw && s[|raw|..] == rest;
  }

  lemma ReadParenthesised(t: Ty, inner: string, rest: string)
    requires ParseType(inner + (")" + rest)) == Ok(t, ")" + rest)
    ensures ParsePrimary("(" + inner + ")" + rest) == Ok(t, rest)
  {
    var s := "(" + inner + ")" + rest;
    assert s[1..] == inner + (")" + rest);
    assert (")" + rest)[1..] == rest;
  }

  lemma ReadEmptyTuple(rest: string)
    ensures ParsePrimary("[]" + rest) == Ok(Tuple([]), rest)
  {
    var s := "[]" + rest;
    assert s[0] == '[' && s[2..] == rest;
  }

  lemma ReadTuple(items: seq<Ty>, inner: string, rest: string)
    requires inner != [] && inner[0] != ']'
    requires ParseItems(inner + ("]" + rest)) == Ok(items, "]" + rest)
    ensures ParsePrimary("[" + inner + "]" + rest) == Ok(Tuple(items), rest)
  {
    var s := "[" + inner + "]" + rest;
    assert s[1..] == inner + ("]" + rest);
    assert s[1] == inner[0];
    assert !("[]" <= s);
    assert ("]" + rest)[1..] == rest;
  }

  lemma ReadEmptyObject(rest: string)
    ensures ParsePrimary("{}" + rest) == Ok(Object([]), rest)
  {
    var s := "{}" + rest;
    assert s[0] == '{' && s[2..] == rest;
  }

  lemma ReadObject(fs: seq<Field>, inner: string, rest: string)
    requires ParseFields(inner + (" }" + rest)) == Ok(fs, " }" + rest)
    ensures ParsePrimary("{ " + inner + " }" + rest) == Ok(Object(fs), rest)
  {
    var s := "{ " + inner + " }" + rest;
    assert s[0] == '{' && s[1] == ' ';
    assert s[2..] == inner + (" }" + rest);
    assert "{ " <= s && !("{}" <= s);
    assert (" }" + rest)[2..] == rest;
  }

  /** A readable type prints to text that starts with none of the closing characters. */
  lemma {:induction false} PrintStart(t: Ty)
    requires Readable(t)
    ensures Print(t) != [] && Print(t)[0] != ']' && Group(t) != [] && Group(t)[0] != ']'
    decreases t
  {
    match t
    case Word(w) => assert NameChar(w[0]);
    case Arr(e) => PrintStart(e);
    case Union(ps) => PrintStart(ps[0]);
    case Inter(ps) => PrintStart(ps[0]);
    case _ =>
  }

  function Rank(t: Ty): nat { if IsOp(t) then 0 else 3 }

  /** Reading a printed type gives the tree back and stops where the print stopped. */
  lemma {:induction false} ReadType(t: Ty, rest: string)
    requires Readable(t) && AfterType(rest)
    ensures ParseType(Print(t) + rest) == Ok(t, rest)
    decreases t, Rank(t)
  {
    if IsOp(t) {
      var op := if t.Union? then '|' else '&';
      var ps, sep, tail := t.parts, [' ', op, ' '], PrintParts(t.parts[1..], op);
      var more := sep + (tail + rest);
      Assoc(Group(ps[0]) + sep, tail, rest);
      Assoc(Group(ps[0]), sep, tail + rest);
      ReadOperand(ps[0], more);
      assert more[0] == ' ' && sep <= more;
      NoSuffix(ps[0], more);
      ReadParts(ps[1..], op, rest);
      Assoc(sep, tail, rest);
      assert [ps[0]] + ps[1..] == ps;
      OperatorsDiffer(op, tail + rest);
    } else {
      ReadOperand(t, rest);
      NoSuffix(t, rest);
    }
  }

  lemma NotPrefix(p: string, s: string)
    requires p != [] && (s != [] ==> s[0] != p[0])
    ensures !(p <= s)
  {
  }

  lemma NoSuffix(t: Ty, rest: string)
    requires Readable(t) && AfterOperand(rest)
    ensures ParseSuffixes(t, rest) == Ok(t, rest)
  {
    NotPrefix("[]", rest);
  }

  lemma OperatorsDiffer(op: char, tail: string)
    requires op == '|' || op == '&'
    ensures " | " <= [' ', op, ' '] + tail <==> op == '|'
    ensures " & " <= [' ', op, ' '] + tail <==> op == '&'
  {
    var s := [' ', op, ' '] + tail;
    assert s[1] == op && s[..3] == [' ', op, ' '];
    if " | " <= s { assert s[1] == " | "[1]; }
    if " & " <= s { assert s[1] == " & "[1]; }
  }

  lemma DropOperator(op: char, text: string, rest: string)
    ensures ([' ', op, ' '] + text + rest)[3..] == text + rest
    ensures [' ', op, ' '] <= [' ', op, ' '] + text + rest
    ensures ([' ', op, ' '] + text + rest)[0] == ' '
  {
  }

  lemma {:induction false} ReadParts(ps: seq<Ty>, op: char, rest: string)
    requires ps != [] && (op == '|' || op == '&') && AfterType(rest)
    requires forall i | 0 <= i < |ps| :: Readable(ps[i])
    ensures ParseParts(op, [' ', op, ' '] + PrintParts(ps, op) + rest) == Ok(ps, rest)
    decreases ps, 0
  {
    var sep := [' ', op, ' '];
    DropOperator(op, PrintParts(ps, op), rest);
    if |ps| == 1 {
      ReadOperand(ps[0], rest);
      NoSuffix(ps[0], rest);
      assert ps == [ps[0]];
      assert " | " == [' ', '|', ' '] && " & " == [' ', '&', ' '];
    } else {
      var tail := PrintParts(ps[1..], op);
      var more := sep + tail + rest;
      Assoc(Group(ps[0]) + sep, tail, rest);
      Assoc(Group(ps[0]), sep, tail + rest);
      Assoc(sep, tail, rest);
      DropOperator(op, tail, rest);
      ReadOperand(ps[0], more);
      NoSuffix(ps[0], more);
      ReadParts(ps[1..], op, rest);
      assert [ps[0]] + ps[1..] == ps;
    }
  }

  lemma {:induction false} ReadOperand(t: Ty, rest: string)
    requires Readable(t) && AfterName(rest)
    ensures ParseOperand(Group(t) + rest) == ParseSuffixes(t, rest)
    decreases t, 2
  {
    if t.Arr? {
      var more := "[]" + rest;
      Assoc(Group(t.elem), "[]", rest);
      assert more[0] == '[' && !NameChar('[') && more[2..] == rest && "[]" <= more;
      ReadOperand(t.elem, more);
    } else {
      ReadPrimary(t, rest);
    }
  }

  lemma {:induction false} ReadPrimary(t: Ty, rest: string)
    requires Readable(t) && AfterName(rest) && !t.Arr?
    ensures ParsePrimary(Group(t) + rest) == Ok(t, rest)
    decreases t, 1
  {
    match t
    case Word(w) => ReadWord(w, rest);
    case Quoted(raw) => ReadQuoted(raw, rest);
    case OpenRecord => ReadOpenRecord(rest);
    case Object(fs) =>
      if fs == [] {
        ReadEmptyObject(rest);
      } else {
        ReadFields(fs, rest);
        ReadObject(fs, PrintFields(fs), rest);
      }
    case Tuple(items) =>
      if items == [] {
        ReadEmptyTuple(rest);
      } else {
        PrintStart(items[0]);
        ReadItems(items, rest);
        ReadTuple(items, PrintItems(items), rest);
      }
    case Union(_) =>
      ReadType(t, ")" + rest);
      ReadParenthesised(t, Print(t), rest);
    case Inter(_) =>
      ReadType(t, ")" + rest);
      ReadParenthesised(t, Print(t), rest);
    case _ =>
  }

  lemma AfterSeparator(sep: string, tail: string)
    requires |sep| == 2
    ensures (sep + tail)[0] == sep[0] && (sep + tail)[2..] == tail && sep <= sep + tail
  {
  }

  lemma {:induction false} ReadItems(items: seq<Ty>, rest: string)
    requires items != [] && forall i | 0 <= i < |items| :: Readable(items[i])
    ensures ParseItems(PrintItems(items) + ("]" + rest)) == Ok(items, "]" + rest)
    decreases items, 0
  {
    var close := "]" + rest;
    if |items| == 1 {
      ReadType(items[0], close);
      NotPrefix(", ", close);
      assert items == [items[0]];
    } else {
      var sep, tail := ", ", PrintItems(items[1..]);
      var more := sep + (tail + close);
      Assoc(Print(items[0]) + sep, tail, close);
      Assoc(Print(items[0]), sep, tail + close);
      AfterSeparator(sep, tail + close);
      ReadType(items[0], more);
      ReadItems(items[1..], rest);
      assert [items[0]] + items[1..] == items;
    }
  }

  lemma AnotherField(f: Field, fs: seq<Field>, text: string, tail: string, rest: string)
    requires ParseField(text) == Ok(f, "; " + tail) && ParseFields(tail) == Ok(fs, rest)
    ensures ParseFields(text) == Ok([f] + fs, rest)
  {
    AfterSeparator("; ", tail);
  }

  lemma FieldsThen(fs: seq<Field>, rest: string)
    requires |fs| > 1
    ensures PrintFields(fs) + rest == PrintField(fs[0]) + ("; " + (PrintFields(fs[1..]) + rest))
  {
    Assoc(PrintField(fs[0]) + "; ", PrintFields(fs[1..]), rest);
    Assoc(PrintField(fs[0]), "; ", PrintFields(fs[1..]) + rest);
  }

  lemma SemicolonEndsType(tail: string)
    ensures AfterType("; " + tail)
  {
    AfterSeparator("; ", tail);
  }

  lemma {:induction false} ReadFields(fs: seq<Field>, rest: string)
    requires fs != [] && forall i | 0 <= i < |fs| :: ReadableField(fs[i])
    ensures ParseFields(PrintFields(fs) + (" }" + rest)) == Ok(fs, " }" + rest)
    decreases fs, 0
  {
    var close := " }" + rest;
    if |fs| == 1 {
      assert close[1] == '}';
      ReadField(fs[0], close);
      NotPrefix("; ", close);
      assert fs == [fs[0]];
    } else {
      var tail := PrintFields(fs[1..]) + close;
      FieldsThen(fs, close);
      SemicolonEndsType(tail);
      ReadField(fs[0], "; " + tail);
      ReadFields(fs[1..], rest);
      AnotherField(fs[0], fs[1..], PrintFields(fs) + close, tail, close);
      assert [fs[0]] + fs[1..] == fs;
    }
  }

  lemma {:induction false} ReadField(f: Field, rest: string)
    requires ReadableField(f) && AfterType(rest)
    ensures ParseField(PrintField(f) + rest) == Ok(f, rest)
    decreases f, 0
  {
    ReadType(f.ty, rest);
    Assoc(PrintKey(f), Print(f.ty), rest);
    if f.Index? {
      ReadIndexKey(f.ty, Print(f.ty) + rest, rest);
    } else {
      ReadPropKey(f, Print(f.ty) + rest, rest);
    }
  }

  lemma ReadIndexKey(t: Ty, body: string, rest: string)
    requires ParseType(body) == Ok(t, rest)
    ensures ParseField("[key: string]: " + body) == Ok(Index(t), rest)
  {
    var key := "[key: string]: ";
    assert (key + body)[15..] == body;
    assert key <= key + body;
  }

  // What follows a key: the mark of an optional property, and the separator.
  function KeyTail(f: Field, body: string): (r: string)
    requires f.Prop?
    ensures r != [] && !NameChar(r[0])
  {
    if f.optional then "?" + (": " + body) else ": " + body
  }

  lemma KeyThenTail(f: Field, body: string)
    requires f.Prop?
    ensures PrintKey(f) + body == f.key + KeyTail(f, body)
  {
    var mark := if f.optional then "?" else "";
    Assoc(f.key + mark, ": ", body);
    Assoc(f.key, mark, ": " + body);
    assert mark + (": " + body) == KeyTail(f, body);
  }

  lemma ReadTail(f: Field, body: string, s: string)
    requires f.Prop? && s == f.key + KeyTail(f, body)
    ensures s[..|f.key|] == f.key && s[|f.key|..] == KeyTail(f, body)
    ensures var m := if f.optional then |f.key| + 1 else |f.key|; s[m..] == ": " + body
  {
    if f.optional {
      assert KeyTail(f, body)[1..] == ": " + body;
    }
  }

  lemma ReadProp(f: Field, body: string, rest: string)
    requires f.Prop? && (IsName(f.key) || IsQuoted(f.key)) && ParseType(body) == Ok(f.ty, rest)
    ensures ParseProp(f.key + KeyTail(f, body)) == Ok(f, rest)
  {
    var s := f.key + KeyTail(f, body);
    ReadKeyLength(f.key, KeyTail(f, body));
    ReadTail(f, body, s);
    if f.optional {
      assert "?" <= KeyTail(f, body);
    } else {
      NotPrefix("?", KeyTail(f, body));
    }
    assert ": " <= ": " + body && (": " + body)[2..] == body;
  }

  lemma ReadPropKey(f: Field, body: string, rest: string)
    requires f.Prop? && (IsName(f.key) || IsQuoted(f.key)) && ParseType(body) == Ok(f.ty, rest)
    ensures ParseField(PrintKey(f) + body) == Ok(f, rest)
  {
    var s := f.key + KeyTail(f, body);
    KeyThenTail(f, body);
    ReadProp(f, body, rest);
    assert s[0] == f.key[0] != '[' by { if IsName(f.key) { assert NameChar(f.key[0]); } }
    NotPrefix("[key: string]: ", s);
  }

  lemma ReadKeyLength(key: string, tail: string)
    requires (IsName(key) || IsQuoted(key)) && tail != [] && !NameChar(tail[0])
    ensures KeyLength(key + tail) == |key|
  {
    if IsQuoted(key) {
      assert (key + tail)[1..] == key[1..] + tail;
      BodyLengthAppend(key[1..], tail);
    } else {
      assert NameChar(key[0]);
      NameLengthAppend(key, tail);
    }
  }

  /** A printed type reads back to its own tree exactly when the tree is readable. */
  lemma PrintedTypeReadsBack(t: Ty)
    ensures ParseType(Print(t)) == Ok(t, "") <==> Readable(t)
  {
    if Readable(t) {
      ReadType(t, "");
      assert Print(t) + "" == Print(t);
    }
  }

  /** Readable trees with one text are one tree, so comparing texts compares types. */
  lemma TextDecidesType(t: Ty, u: Ty)
    requires Readable(t) && Readable(u)
    ensures Print(t) == Print(u) <==> t == u
  {
    PrintedTypeReadsBack(t);
    PrintedTypeReadsBack(u);
  }
}
