/**
 * Blanking out the strings and comments of a script in place, so that prohibited identifiers are
 * looked for in its code only.
 */
module SourceMask {

  datatype Mode = Code | Line | Block | Quoted(quote: char)

  predicate IsQuote(c: char) {
    c == '\'' || c == '"' || c == '`'
  }

  predicate LineEnd(c: char) {
    c == '\r' || c == '\n'
  }

  function NextChar(s: string): char
    requires s != ""
  {
    if |s| > 1 then s[1] else '\0'
  }

  // How many characters one turn of the loop takes, whether it blanks them, and the mode after it.
  datatype Turn = Turn(taken: nat, blank: bool, mode: Mode)

  function TurnAt(c: char, next: char, mode: Mode): (t: Turn)
    ensures 1 <= t.taken <= 2 && (t.taken == 2 ==> next != '\0' && t.blank)
  {
    match mode
    case Line => if LineEnd(c) then Turn(1, false, Code) else Turn(1, true, Line)
    case Block => if c == '*' && next == '/' then Turn(2, true, Code) else Turn(1, true, Block)
    case Quoted(quote) =>
      if c == '\\' && next != '\0' then Turn(2, true, mode) else Turn(1, true, if c == quote then Code else mode)
    case Code =>
      if IsQuote(c) then Turn(1, true, Quoted(c))
      else if c == '/' && next == '/' then Turn(2, true, Line)
      else if c == '/' && next == '*' then Turn(2, true, Block)
      else Turn(1, false, Code)
  }

  function TurnOf(s: string, mode: Mode): (t: Turn)
    requires s != ""
    ensures 1 <= t.taken <= |s| && t.taken <= 2
  {
    TurnAt(s[0], NextChar(s), mode)
  }

  function Blanks(n: nat): (r: string)
    ensures |r| == n && forall i :: 0 <= i < n ==> r[i] == ' '
  {
    seq(n, _ => ' ')
  }

  function Mask(s: string, mode: Mode): string
    decreases |s|
  {
    if s == "" then ""
    else
      var t := TurnOf(s, mode);
      (if t.blank then Blanks(t.taken) else s[..t.taken]) + Mask(s[t.taken..], t.mode)
  }

  // ---------------------------------------------------------------- the loop

  lemma MaskTurn(s: string, mode: Mode, done: string, whole: string)
    requires s != "" && done + Mask(s, mode) == whole
    ensures var t := TurnOf(s, mode);
            (done + (if t.blank then Blanks(t.taken) else s[..t.taken])) + Mask(s[t.taken..], t.mode) == whole
  {
    var t := TurnOf(s, mode);
    assert done + ((if t.blank then Blanks(t.taken) else s[..t.taken]) + Mask(s[t.taken..], t.mode)) == whole;
  }

  // The three variables of the loop, and the mode they stand for.
  datatype Flags = Flags(quote: char, lineComment: bool, blockComment: bool)

  predicate Consistent(f: Flags) {
    !(f.lineComment && f.blockComment) && (f.quote != '\0' ==> IsQuote(f.quote) && !f.lineComment && !f.blockComment)
  }

  function ModeOf(f: Flags): Mode {
    if f.lineComment then Line else if f.blockComment then Block else if f.quote != '\0' then Quoted(f.quote) else Code
  }

  // What one turn does to the variables, and how far the blanks reach.
  method Look(current: char, next: char, f: Flags) returns (after: Flags, blank: bool, taken: nat)
    requires Consistent(f)
    ensures Consistent(after) && Turn(taken, blank, ModeOf(after)) == TurnAt(current, next, ModeOf(f))
  {
    after, blank, taken := f, true, 1;
    if f.lineComment {
      if LineEnd(current) {
        after, blank := f.(lineComment := false), false;
      }
    } else if f.blockComment {
      if current == '*' && next == '/' {
        after, taken := f.(blockComment := false), 2;
      }
    } else if f.quote != '\0' {
      if current == '\\' && next != '\0' {
        taken := 2;
      } else if current == f.quote {
        after := f.(quote := '\0');
      }
    } else if IsQuote(current) {
      after := f.(quote := current);
    } else if current == '/' && next == '/' {
      after, taken := f.(lineComment := true), 2;
    } else if current == '/' && next == '*' {
      after, taken := f.(blockComment := true), 2;
    } else {
      blank := false;
    }
  }

  lemma BlankedPrefix(before: string, after: string, index: nat, taken: nat)
    requires index + taken <= |before| == |after| && 1 <= taken <= 2
    requires forall k :: 0 <= k < |before| ==> after[k] == if index <= k < index + taken then ' ' else before[k]
    ensures after[..index + taken] == before[..index] + Blanks(taken)
    ensures after[index + taken..] == before[index + taken..]
  {
  }

  method MaskStringsAndComments(characters: array<char>)
    modifies characters
    ensures characters[..] == Mask(old(characters[..]), Code)
  {
    ghost var source := characters[..];
    var flags := Flags('\0', false, false);
    var index := 0;
    assert source[0..] == source && source[..0] == "";
    while index < characters.Length
      invariant 0 <= index <= characters.Length == |source| && Consistent(flags)
      invariant characters[..][index..] == source[index..]
      invariant characters[..][..index] + Mask(source[index..], ModeOf(flags)) == Mask(source, Code)
      decreases characters.Length - index
    {
      ghost var before := characters[..];
      ghost var rest := source[index..];
      assert before[index..] == rest;
      var current := characters[index];
      assert current == rest[0];
      var next := '\0';
      if index + 1 < characters.Length {
        next := characters[index + 1];
        assert next == rest[1];
      }
      assert next == NextChar(rest);
      MaskTurn(rest, ModeOf(flags), before[..index], Mask(source, Code));
      var blank, taken;
      flags, blank, taken := Look(current, next, flags);
      assert taken <= |rest| && rest[taken..] == source[index + taken..];
      if blank {
        characters[index] := ' ';
        characters[index + taken - 1] := ' ';
        BlankedPrefix(before, characters[..], index, taken);
      } else {
        assert before[..index + 1] == before[..index] + rest[..1];
      }
      assert before[index + taken..] == source[index + taken..];
      index := index + taken;
    }
    assert characters[..][..index] == characters[..];
  }

  // ---------------------------------------------------------------- what the mask is

  // The mask keeps every position: each character stays or becomes a blank.
  lemma {:induction false} MaskKeepsPositions(s: string, mode: Mode)
    ensures |Mask(s, mode)| == |s|
    ensures forall i :: 0 <= i < |s| ==> Mask(s, mode)[i] == s[i] || Mask(s, mode)[i] == ' '
    decreases |s|
  {
    if s != "" {
      MaskKeepsPositions(s[TurnOf(s, mode).taken..], TurnOf(s, mode).mode);
    }
  }

  // Where a string or a comment would begin.
  predicate Opens(s: string, i: int)
    requires 0 <= i < |s|
  {
    IsQuote(s[i]) || (s[i] == '/' && i + 1 < |s| && (s[i + 1] == '/' || s[i + 1] == '*'))
  }

  predicate NoOpeners(s: string) {
    forall i :: 0 <= i < |s| ==> !Opens(s, i)
  }

  lemma NoOpenersTail(s: string)
    requires s != "" && NoOpeners(s)
    ensures NoOpeners(s[1..])
  {
    forall i | 0 <= i < |s[1..]|
      ensures !Opens(s[1..], i)
    {
      assert !Opens(s, i + 1);
    }
  }

  // A piece of code behind which something begins keeps its shape and stays free of openers.
  lemma NoOpenersBehind(c: char, rest: string)
    requires NoOpeners(rest) && !IsQuote(c)
    requires c == '/' && rest != "" ==> rest[0] != '/' && rest[0] != '*'
    ensures NoOpeners([c] + rest)
  {
    var s := [c] + rest;
    forall i | 0 <= i < |s|
      ensures !Opens(s, i)
    {
      if i > 0 {
        assert !Opens(rest, i - 1);
      }
    }
  }

  lemma BlanksBehind(n: nat, rest: string)
    requires NoOpeners(rest) && n <= 2
    ensures NoOpeners(Blanks(n) + rest)
  {
    var s := Blanks(n) + rest;
    forall i | 0 <= i < |s|
      ensures !Opens(s, i)
    {
      if i >= n {
        assert !Opens(rest, i - n);
      }
    }
  }

  // The first character of a mask in code mode is the source's own or a blank.
  lemma MaskHead(s: string)
    requires s != ""
    ensures Mask(s, Code) != "" && (Mask(s, Code)[0] == s[0] || Mask(s, Code)[0] == ' ')
  {
    MaskKeepsPositions(s, Code);
  }

  // Nothing that could be a string or a comment is left.
  lemma {:induction false} MaskHasNoOpeners(s: string, mode: Mode)
    ensures NoOpeners(Mask(s, mode))
    decreases |s|
  {
    if s != "" {
      var t := TurnOf(s, mode);
      var rest := s[t.taken..];
      MaskHasNoOpeners(rest, t.mode);
      if t.blank {
        BlanksBehind(t.taken, Mask(rest, t.mode));
      } else {
        if rest != "" {
          MaskHead(rest);
        }
        assert s[..1] == [s[0]];
        NoOpenersBehind(s[0], Mask(rest, Code));
      }
    }
  }

  lemma {:induction false} CodeIsKept(s: string)
    requires NoOpeners(s)
    ensures Mask(s, Code) == s
    decreases |s|
  {
    if s != "" {
      assert !Opens(s, 0);
      NoOpenersTail(s);
      CodeIsKept(s[1..]);
      assert s == s[..1] + s[1..];
    }
  }

  // A script is left as it is exactly when it holds no string and no comment.
  lemma MaskChangesExactlyOpeners(s: string)
    ensures Mask(s, Code) == s <==> NoOpeners(s)
  {
    MaskHasNoOpeners(s, Code);
    if NoOpeners(s) {
      CodeIsKept(s);
    }
  }

  lemma MaskIsIdempotent(s: string)
    ensures Mask(Mask(s, Code), Code) == Mask(s, Code)
  {
    MaskHasNoOpeners(s, Code);
    CodeIsKept(Mask(s, Code));
  }

  // ---------------------------------------------------------------- strings and comments in place

  // Code in front of a string or a comment: no openers, also not together with what follows.
  lemma {:induction false} CodeBefore(code: string, rest: string)
    requires rest != "" && NoOpeners(code)
    requires code != "" && code[|code| - 1] == '/' ==> rest[0] != '/' && rest[0] != '*'
    ensures Mask(code + rest, Code) == code + Mask(rest, Code)
    decreases |code|
  {
    if code == "" {
      assert code + rest == rest;
    } else {
      assert !Opens(code, 0);
      NoOpenersTail(code);
      assert (code + rest)[..1] == code[..1] && (code + rest)[1..] == code[1..] + rest;
      CodeBefore(code[1..], rest);
      assert code == code[..1] + code[1..];
      assert code[..1] + (code[1..] + Mask(rest, Code)) == code + Mask(rest, Code);
    }
  }

  // The inside of a string literal: escapes in pairs, no closing quote.
  predicate StringBody(body: string, quote: char)
    decreases |body|
  {
    body == "" ||
    if body[0] == '\\' then |body| >= 2 && body[1] != '\0' && StringBody(body[2..], quote)
    else body[0] != quote && StringBody(body[1..], quote)
  }

  lemma BlanksAdd(m: nat, n: nat, rest: string)
    ensures Blanks(m) + (Blanks(n) + rest) == Blanks(m + n) + rest
  {
  }

  lemma {:induction false} StringIsBlanked(body: string, quote: char, rest: string)
    requires IsQuote(quote) && StringBody(body, quote)
    ensures Mask(body + [quote] + rest, Quoted(quote)) == Blanks(|body| + 1) + Mask(rest, Code)
    decreases |body|
  {
    var s := body + [quote] + rest;
    if body == "" {
      assert s[1..] == rest;
    } else {
      var n := if body[0] == '\\' then 2 else 1;
      assert s[n..] == body[n..] + [quote] + rest;
      StringIsBlanked(body[n..], quote, rest);
      BlanksAdd(n, |body| - n + 1, Mask(rest, Code));
    }
  }

  // A comment's text, with no end in it.
  predicate LineBody(body: string) {
    forall i :: 0 <= i < |body| ==> !LineEnd(body[i])
  }

  predicate ClosesAt(body: string, i: int)
    requires 0 <= i < |body|
  {
    body[i] == '*' && i + 1 < |body| && body[i + 1] == '/'
  }

  predicate BlockBody(body: string) {
    forall i :: 0 <= i < |body| ==> !ClosesAt(body, i)
  }

  lemma {:induction false} LineIsBlanked(body: string, rest: string)
    requires LineBody(body) && (rest == "" || LineEnd(rest[0]))
    ensures Mask(body + rest, Line) == Blanks(|body|) + Mask(rest, Code)
    decreases |body|
  {
    if body == "" {
      assert body + rest == rest;
      assert rest != "" ==> rest[..1] == [rest[0]];
      assert Blanks(0) + Mask(rest, Code) == Mask(rest, Code);
    } else {
      assert (body + rest)[1..] == body[1..] + rest;
      LineIsBlanked(body[1..], rest);
      BlanksAdd(1, |body| - 1, Mask(rest, Code));
    }
  }

  lemma {:induction false} BlockIsBlanked(body: string, rest: string)
    requires BlockBody(body)
    ensures Mask(body + "*/" + rest, Block) == Blanks(|body| + 2) + Mask(rest, Code)
    decreases |body|
  {
    var s := body + "*/" + rest;
    if body == "" {
      assert s[2..] == rest;
    } else {
      assert s[1..] == body[1..] + "*/" + rest;
      assert !ClosesAt(body, 0);
      forall i | 0 <= i < |body[1..]|
        ensures !ClosesAt(body[1..], i)
      {
        assert !ClosesAt(body, i + 1);
      }
      BlockIsBlanked(body[1..], rest);
      BlanksAdd(1, |body| + 1, Mask(rest, Code));
    }
  }

  // A string literal somewhere in a script is blanked, quotes included, and nothing around it is.
  lemma LiteralIsBlanked(code: string, quote: char, body: string, rest: string)
    requires NoOpeners(code) && IsQuote(quote) && StringBody(body, quote)
    ensures Mask(code + ([quote] + body + [quote] + rest), Code) == code + (Blanks(|body| + 2) + Mask(rest, Code))
  {
    var s := [quote] + body + [quote] + rest;
    CodeBefore(code, s);
    assert s[1..] == body + [quote] + rest;
    StringIsBlanked(body, quote, rest);
    BlanksAdd(1, |body| + 1, Mask(rest, Code));
  }

  // So is a block comment, delimiters included.
  lemma BlockCommentIsBlanked(code: string, body: string, rest: string)
    requires NoOpeners(code) && (code != "" ==> code[|code| - 1] != '/') && BlockBody(body)
    ensures Mask(code + ("/*" + (body + "*/" + rest)), Code) == code + (Blanks(|body| + 4) + Mask(rest, Code))
  {
    var s := "/*" + (body + "*/" + rest);
    CodeBefore(code, s);
    assert s[2..] == body + "*/" + rest;
    BlockIsBlanked(body, rest);
    BlanksAdd(2, |body| + 2, Mask(rest, Code));
  }

  // And a line comment, up to the line end, which stays, or the end of the script.
  lemma LineCommentIsBlanked(code: string, body: string, rest: string)
    requires NoOpeners(code) && (code != "" ==> code[|code| - 1] != '/')
    requires LineBody(body) && (rest == "" || LineEnd(rest[0]))
    ensures Mask(code + ("//" + (body + rest)), Code) == code + (Blanks(|body| + 2) + Mask(rest, Code))
  {
    var s := "//" + (body + rest);
    CodeBefore(code, s);
    assert s[2..] == body + rest;
    LineIsBlanked(body, rest);
    BlanksAdd(2, |body|, Mask(rest, Code));
  }
}
