/**
 The block level of the Markdown preview: a line-by-line emitter with three flags, against a parser
 into blocks and a printer of blocks. Inline formatting stays inside the text of a token.
 */
module Markdown {
  import opened Wrappers
  import Redact

  // ---- escaping --------------------------------------------------------------------------------

  function EscapedChar(c: char): string {
    if c == '&' then "&amp;" else if c == '<' then "&lt;" else if c == '>' then "&gt;" else if c == '"' then "&quot;" else [c]
  }

  function EscapeHtml(s: string): string {
    if s == [] then [] else EscapedChar(s[0]) + EscapeHtml(s[1..])
  }

  /** The entity at the start of `s`, if it is one of the four, and its length; otherwise the character itself. */
  function ReadChar(s: string): (r: (char, nat))
    requires s != []
    ensures 1 <= r.1 <= |s|
  {
    if "&amp;" <= s then ('&', 5)
    else if "&lt;" <= s then ('<', 4)
    else if "&gt;" <= s then ('>', 4)
    else if "&quot;" <= s then ('"', 6)
    else (s[0], 1)
  }

  function UnescapeHtml(s: string): string {
    if s == [] then [] else [ReadChar(s).0] + UnescapeHtml(s[ReadChar(s).1..])
  }

  lemma ReadEscapedChar(c: char, rest: string)
    ensures ReadChar(EscapedChar(c) + rest) == (c, |EscapedChar(c)|)
  {
    var s := EscapedChar(c) + rest;
    assert s[..|EscapedChar(c)|] == EscapedChar(c);
    if c == '<' {
      assert s[1] == 'l' && "&amp;"[1] == 'a';
    } else if c == '>' {
      assert s[1] == 'g' && "&amp;"[1] == 'a' && "&lt;"[1] == 'l';
    } else if c == '"' {
      assert s[1] == 'q' && "&amp;"[1] == 'a' && "&lt;"[1] == 'l' && "&gt;"[1] == 'g';
    } else if c != '&' {
      assert s[0] == c && "&amp;"[0] == '&' && "&lt;"[0] == '&' && "&gt;"[0] == '&' && "&quot;"[0] == '&';
    }
  }

  /** Escaping can be undone, so no two texts escape alike. */
  lemma {:induction false} EscapeRoundTrip(s: string)
    ensures UnescapeHtml(EscapeHtml(s)) == s
  {
    if s == [] {
    } else {
      EscapeRoundTrip(s[1..]);
      ReadEscapedChar(s[0], EscapeHtml(s[1..]));
      var e := EscapeHtml(s);
      assert e[|EscapedChar(s[0])|..] == EscapeHtml(s[1..]);
      assert s == [s[0]] + s[1..];
    }
  }

  lemma EscapeInjective(s: string, t: string)
    requires EscapeHtml(s) == EscapeHtml(t)
    ensures s == t
  {
    EscapeRoundTrip(s);
    EscapeRoundTrip(t);
  }

  /** No character of the output can open or close a tag or an attribute value. */
  lemma {:induction false} EscapedIsHarmless(s: string)
    ensures forall c :: c in EscapeHtml(s) ==> c != '<' && c != '>' && c != '"'
  {
    if s == [] {
    } else {
      EscapedIsHarmless(s[1..]);
    }
  }

  // ---- lines ---------------------------------------------------------------------------------------

  predicate IsSpace(c: char) {
    || '\t' <= c <= '\r' || c == ' ' || c == '\U{A0}' || c == '\U{1680}' || '\U{2000}' <= c <= '\U{200A}'
    || c == '\U{2028}' || c == '\U{2029}' || c == '\U{202F}' || c == '\U{205F}' || c == '\U{3000}' || c == '\U{FEFF}'
  }

  function SkipSpaces(s: string): string {
    if s != [] && IsSpace(s[0]) then SkipSpaces(s[1..]) else s
  }

  function CountWhile(s: string, digits: bool): (n: nat)
    ensures n <= |s|
  {
    if s != [] && (if digits then '0' <= s[0] <= '9' else s[0] == '#') then 1 + CountWhile(s[1..], digits) else 0
  }

  /** The rest of a line after its marker: at least one space, then text without line separators. */
  function AfterMarker(s: string): Option<string> {
    if s == [] || !IsSpace(s[0]) then None
    else
      var text := SkipSpaces(s);
      if '\n' in text || '\r' in text || '\U{2028}' in text || '\U{2029}' in text then None else Some(text)
  }

  datatype Line = Fence | Heading(level: nat, text: string) | Item(ordered: bool, text: string) | Blank | Plain(text: string)

  function HeadingText(s: string): Option<string> {
    var n := CountWhile(s, false);
    if 1 <= n <= 6 then AfterMarker(s[n..]) else None
  }

  function BulletText(s: string): Option<string> {
    var t := SkipSpaces(s);
    if t != [] && (t[0] == '-' || t[0] == '*') then AfterMarker(t[1..]) else None
  }

  function NumberedText(s: string): Option<string> {
    var t := SkipSpaces(s);
    var n := CountWhile(t, true);
    if 1 <= n < |t| && t[n] == '.' then AfterMarker(t[n + 1..]) else None
  }

  /** What a line is outside a code fence, in the order the patterns are tried. */
  function Classify(s: string): Line {
    if "```" <= s then Fence
    else if HeadingText(s).Some? then Heading(CountWhile(s, false), HeadingText(s).value)
    else if BulletText(s).Some? then Item(false, BulletText(s).value)
    else if NumberedText(s).Some? then Item(true, NumberedText(s).value)
    else if SkipSpaces(s) == [] then Blank
    else Plain(s)
  }

  // ---- what the patterns match -------------------------------------------------------------------------

  /** White space here is that of JavaScript: the Unicode one without NEL and with the byte order mark. */
  lemma SpaceIsScriptSpace(c: char)
    ensures IsSpace(c) <==> (Redact.IsSpace(c) && c as int != 0x85) || c as int == 0xFEFF
  {
  }

  /** `text` stands behind at least one space, all the spaces there are, and is one line to a pattern's dot. */
  ghost predicate Spaced(s: string, text: string) {
    && |text| < |s| && s[|s| - |text|..] == text
    && (forall i :: 0 <= i < |s| - |text| ==> IsSpace(s[i]))
    && (text != [] ==> !IsSpace(text[0]))
    && forall c :: c in text ==> c as int !in {10, 13, 0x2028, 0x2029}
  }

  /** `s` is `k` spaces and then something that is none. */
  ghost predicate Indented(s: string, k: nat) {
    k <= |s| && (forall i :: 0 <= i < k ==> IsSpace(s[i])) && (k < |s| ==> !IsSpace(s[k]))
  }

  lemma {:induction false} SkipSpacesIs(s: string) returns (k: nat)
    ensures Indented(s, k) && SkipSpaces(s) == s[k..]
    ensures forall j: nat :: Indented(s, j) ==> j == k
  {
    if s != [] && IsSpace(s[0]) {
      var m := SkipSpacesIs(s[1..]);
      k := m + 1;
      forall j: nat | Indented(s, j) ensures j == k {
        assert Indented(s[1..], j - 1);
      }
    } else {
      k := 0;
    }
  }

  lemma AfterMarkerIs(s: string, text: string)
    ensures AfterMarker(s) == Some(text) <==> Spaced(s, text)
  {
    var k := SkipSpacesIs(s);
    if Spaced(s, text) {
      assert Indented(s, |s| - |text|);
    }
  }

  ghost predicate Marks(s: string, n: nat, digits: bool) {
    && n <= |s|
    && (forall i :: 0 <= i < n ==> if digits then 48 <= s[i] as int <= 57 else s[i] == '#')
    && (n < |s| ==> if digits then !(48 <= s[n] as int <= 57) else s[n] != '#')
  }

  lemma {:induction false} CountWhileIs(s: string, digits: bool)
    ensures Marks(s, CountWhile(s, digits), digits)
    ensures forall m: nat :: Marks(s, m, digits) ==> m == CountWhile(s, digits)
  {
    if s != [] && (if digits then '0' <= s[0] <= '9' else s[0] == '#') {
      CountWhileIs(s[1..], digits);
      forall m: nat | Marks(s, m, digits) ensures m == CountWhile(s, digits) {
        assert Marks(s[1..], m - 1, digits);
      }
    }
  }

  /** A line is a heading of level `n` exactly if it is 1 to 6 hashes, spaces, and that text. */
  lemma HeadingIff(s: string, n: nat, text: string)
    ensures Classify(s) == Heading(n, text) <==>
      1 <= n <= 6 && n <= |s| && (forall i :: 0 <= i < n ==> s[i] == '#') && Spaced(s[n..], text)
  {
    var m := CountWhile(s, false);
    CountWhileIs(s, false);
    AfterMarkerIs(s[m..], text);
    if n <= |s| && (forall i :: 0 <= i < n ==> s[i] == '#') && Spaced(s[n..], text) {
      assert IsSpace(s[n..][0]);
      assert Marks(s, n, false);
    }
  }

  /** A bullet exactly if it is spaces or none, a hyphen or an asterisk, spaces, and that text. */
  lemma BulletIff(s: string, text: string)
    ensures Classify(s) == Item(false, text) <==>
      exists k: nat :: k < |s| && Indented(s, k) && s[k] in "-*" && Spaced(s[k + 1..], text)
  {
    var k := SkipSpacesIs(s);
    var t := SkipSpaces(s);
    if t != [] {
      assert t[1..] == s[k + 1..];
      AfterMarkerIs(s[k + 1..], text);
    }
    CountWhileIs(s, false);
  }

  ghost predicate NumberedAt(s: string, k: nat, n: nat, text: string) {
    && k + n < |s| && n >= 1 && Indented(s, k) && Marks(s[k..], n, true)
    && s[k + n] == '.' && Spaced(s[k + n + 1..], text)
  }

  lemma NumberedTextIs(s: string, text: string)
    ensures NumberedText(s) == Some(text) <==> exists k: nat, n: nat :: NumberedAt(s, k, n, text)
  {
    var k := SkipSpacesIs(s);
    var t := SkipSpaces(s);
    var n := CountWhile(t, true);
    CountWhileIs(t, true);
    if n < |t| {
      assert t[n + 1..] == s[k + n + 1..] && t[n] == s[k + n];
      AfterMarkerIs(s[k + n + 1..], text);
    }
    if NumberedText(s) == Some(text) {
      assert NumberedAt(s, k, n, text);
    }
  }

  lemma NumberedIsNothingElse(s: string)
    requires NumberedText(s).Some?
    ensures Classify(s) == Item(true, NumberedText(s).value)
  {
    var k := SkipSpacesIs(s);
    CountWhileIs(s, false);
    CountWhileIs(SkipSpaces(s), true);
    assert 48 <= s[k] as int <= 57;
    if k > 0 {
      assert IsSpace(s[0]);
    }
  }

  /** A numbered item exactly if it is spaces or none, digits, a full stop, spaces, and that text. */
  lemma NumberedIff(s: string, text: string)
    ensures Classify(s) == Item(true, text) <==> exists k: nat, n: nat :: NumberedAt(s, k, n, text)
  {
    NumberedTextIs(s, text);
    if NumberedText(s).Some? {
      NumberedIsNothingElse(s);
    }
  }

  /** A fence exactly if it starts with three backquotes. */
  lemma FenceIff(s: string)
    ensures Classify(s) == Fence <==> |s| >= 3 && s[0] == s[1] == s[2] == '`'
  {
  }

  /** Blank exactly if there is nothing but spaces. */
  lemma BlankIff(s: string)
    ensures Classify(s) == Blank <==> forall i :: 0 <= i < |s| ==> IsSpace(s[i])
  {
    var k := SkipSpacesIs(s);
    CountWhileIs(s, false);
    if k == |s| && s != [] {
      assert IsSpace(s[0]);
    }
    if forall i :: 0 <= i < |s| ==> IsSpace(s[i]) {
      assert Indented(s, |s|);
    }
  }

  // ---- the emitter, from any point on ------------------------------------------------------------------

  datatype Tag = H(level: nat) | P | Ul | Ol | Li | Pre | Code

  datatype Token = Open(tag: Tag) | Close(tag: Tag) | Inline(text: string) | Raw(text: string)

  datatype Mode = Top | InList(ordered: bool) | InCode

  function ListTag(ordered: bool): Tag {
    if ordered then Ol else Ul
  }

  function CloseLists(m: Mode): seq<Token> {
    if m.InList? then [Close(ListTag(m.ordered))] else []
  }

  function Wrapped(tag: Tag, text: string): seq<Token> {
    [Open(tag), Inline(text), Close(tag)]
  }

  /** What one line adds to the output. */
  function LineTokens(m: Mode, s: string): seq<Token> {
    var line := Classify(s);
    if m.InCode? then (if line.Fence? then [Close(Code), Close(Pre)] else [Raw(s)])
    else
      match line
      case Fence => CloseLists(m) + [Open(Pre), Open(Code)]
      case Heading(n, text) => CloseLists(m) + Wrapped(H(n), text)
      case Item(ordered, text) =>
        (if m == InList(ordered) then [] else CloseLists(m) + [Open(ListTag(ordered))]) + Wrapped(Li, text)
      case Blank => CloseLists(m)
      case Plain(text) => CloseLists(m) + Wrapped(P, text)
  }

  function NextMode(m: Mode, s: string): Mode {
    var line := Classify(s);
    if m.InCode? then (if line.Fence? then Top else InCode)
    else if line.Fence? then InCode
    else if line.Item? then InList(line.ordered)
    else Top
  }

  /** What is emitted from a line on, given the flags, the final closing included. */
  function Emit(m: Mode, lines: seq<string>): seq<Token>
    decreases |lines|
  {
    if lines == [] then (if m.InCode? then [Close(Code), Close(Pre)] else CloseLists(m))
    else LineTokens(m, lines[0]) + Emit(NextMode(m, lines[0]), lines[1..])
  }

  function ModeOf(inUl: bool, inOl: bool, inCode: bool): Mode {
    if inCode then InCode else if inUl then InList(false) else if inOl then InList(true) else Top
  }

  /** `closeLists`: at most one list is open. */
  method CloseOpenLists(inUl: bool, inOl: bool) returns (added: seq<Token>)
    requires !(inUl && inOl)
    ensures added == CloseLists(ModeOf(inUl, inOl, false))
  {
    added := [];
    if inUl {
      added := added + [Close(Ul)];
    }
    if inOl {
      added := added + [Close(Ol)];
    }
  }

  /** One turn of the loop: what a line adds to the output, and the flags after it. */
  method EmitLine(inUl: bool, inOl: bool, inCode: bool, s: string)
    returns (added: seq<Token>, inUl': bool, inOl': bool, inCode': bool)
    requires !(inUl && inOl) && !(inCode && (inUl || inOl))
    ensures !(inUl' && inOl') && !(inCode' && (inUl' || inOl'))
    ensures added == LineTokens(ModeOf(inUl, inOl, inCode), s)
    ensures ModeOf(inUl', inOl', inCode') == NextMode(ModeOf(inUl, inOl, inCode), s)
  {
    var line := Classify(s);
    if inCode {
      inUl', inOl', inCode' := false, false, !line.Fence?;
      added := if line.Fence? then [Close(Code), Close(Pre)] else [Raw(s)];
      return;
    }
    if line.Item? && (if line.ordered then inOl else inUl) {
      return Wrapped(Li, line.text), inUl, inOl, false;
    }
    added := CloseOpenLists(inUl, inOl);
    inUl', inOl', inCode' := false, false, false;
    match line {
      case Fence =>
        inCode' := true;
        added := added + [Open(Pre), Open(Code)];
      case Heading(n, text) =>
        added := added + Wrapped(H(n), text);
      case Item(ordered, text) =>
        inUl', inOl' := !ordered, ordered;
        added := added + [Open(ListTag(ordered))] + Wrapped(Li, text);
      case Blank =>
      case Plain(text) =>
        added := added + Wrapped(P, text);
    }
  }

  /** The loop with its three flags, and the closing at the end. */
  method MdToHtml(lines: seq<string>) returns (html: seq<Token>)
    ensures html == Emit(Top, lines)
  {
    html := [];
    var inUl, inOl, inCode := false, false, false;
    for i := 0 to |lines|
      invariant !(inUl && inOl) && !(inCode && (inUl || inOl))
      invariant html + Emit(ModeOf(inUl, inOl, inCode), lines[i..]) == Emit(Top, lines)
    {
      ghost var before, mode := html, ModeOf(inUl, inOl, inCode);
      assert lines[i..][0] == lines[i] && lines[i..][1..] == lines[i + 1..];
      var added;
      added, inUl, inOl, inCode := EmitLine(inUl, inOl, inCode, lines[i]);
      html := html + added;
      Regroup(before, LineTokens(mode, lines[i]), Emit(NextMode(mode, lines[i]), lines[i + 1..]));
    }
    assert lines[|lines|..] == [];
    if inUl {
      html := html + [Close(Ul)];
    }
    if inOl {
      html := html + [Close(Ol)];
    }
    if inCode {
      html := html + [Close(Code), Close(Pre)];
    }
  }

  lemma Regroup(a: seq<Token>, b: seq<Token>, c: seq<Token>)
    ensures a + b + c == a + (b + c)
  {
  }

  // ---- the reference: parse into blocks, print blocks ------------------------------------------------------

  datatype Block = HeadingBlock(level: nat, text: string) | Para(text: string) | List(ordered: bool, items: seq<string>) | CodeBlock(lines: seq<string>)

  /** How many lines from the start are items of one kind. */
  function ItemRun(lines: seq<string>, ordered: bool): (n: nat)
    ensures n <= |lines|
  {
    if lines != [] && Classify(lines[0]).Item? && Classify(lines[0]).ordered == ordered then 1 + ItemRun(lines[1..], ordered) else 0
  }

  function ItemTexts(lines: seq<string>): seq<string> {
    if lines == [] then []
    else
      var line := Classify(lines[0]);
      (if line.Item? then [line.text] else []) + ItemTexts(lines[1..])
  }

  /** How many lines come before the next fence. */
  function CodeRun(lines: seq<string>): (n: nat)
    ensures n <= |lines|
  {
    if lines != [] && !Classify(lines[0]).Fence? then 1 + CodeRun(lines[1..]) else 0
  }

  function From(lines: seq<string>, i: nat): (r: seq<string>)
    ensures |r| <= |lines| && (lines != [] && i > 0 ==> |r| < |lines|)
  {
    if i <= |lines| then lines[i..] else []
  }

  /** The block that starts at the first line, if that line prints anything, and how many lines it takes. */
  function FirstBlock(lines: seq<string>): (r: (seq<Block>, nat))
    requires lines != []
    ensures r.1 > 0
  {
    match Classify(lines[0])
    case Fence =>
      var n := CodeRun(lines[1..]);
      ([CodeBlock(lines[1..n + 1])], n + 2)
    case Item(ordered, _) =>
      var n := 1 + ItemRun(lines[1..], ordered);
      ([List(ordered, ItemTexts(lines[..n]))], n)
    case Heading(n, text) => ([HeadingBlock(n, text)], 1)
    case Plain(text) => ([Para(text)], 1)
    case Blank => ([], 1)
  }

  function Blocks(lines: seq<string>): seq<Block>
    decreases |lines|
  {
    if lines == [] then [] else FirstBlock(lines).0 + Blocks(From(lines, FirstBlock(lines).1))
  }

  function PrintItems(items: seq<string>): seq<Token> {
    if items == [] then [] else Wrapped(Li, items[0]) + PrintItems(items[1..])
  }

  function PrintCode(lines: seq<string>): seq<Token> {
    if lines == [] then [] else [Raw(lines[0])] + PrintCode(lines[1..])
  }

  function Print(b: Block): seq<Token> {
    match b
    case HeadingBlock(n, text) => Wrapped(H(n), text)
    case Para(text) => Wrapped(P, text)
    case List(ordered, items) => [Open(ListTag(ordered))] + PrintItems(items) + [Close(ListTag(ordered))]
    case CodeBlock(lines) => [Open(Pre), Open(Code)] + PrintCode(lines) + [Close(Code), Close(Pre)]
  }

  function PrintAll(bs: seq<Block>): seq<Token> {
    if bs == [] then [] else Print(bs[0]) + PrintAll(bs[1..])
  }

  /** Inside a list the emitter prints the run of items, closes the list, and goes on at the top. */
  lemma {:induction false} EmitInList(ordered: bool, lines: seq<string>)
    ensures var n := ItemRun(lines, ordered);
      Emit(InList(ordered), lines) == PrintItems(ItemTexts(lines[..n])) + ([Close(ListTag(ordered))] + Emit(Top, lines[n..]))
  {
    var n := ItemRun(lines, ordered);
    if n > 0 {
      EmitInList(ordered, lines[1..]);
      EmitNextItem(ordered, lines);
      FirstItem(lines, n - 1);
      assert lines[1..][n - 1..] == lines[n..];
      var text, more := Classify(lines[0]).text, ItemTexts(lines[1..][..n - 1]);
      PrintItemsCons(text, more);
      Regroup(Wrapped(Li, text), PrintItems(more), [Close(ListTag(ordered))] + Emit(Top, lines[n..]));
    } else {
      assert lines[..0] == [] && lines[0..] == lines;
      TopAfterList(ordered, lines);
    }
  }

  lemma EmitNextItem(ordered: bool, lines: seq<string>)
    requires lines != [] && Classify(lines[0]).Item? && Classify(lines[0]).ordered == ordered
    ensures Emit(InList(ordered), lines) == Wrapped(Li, Classify(lines[0]).text) + Emit(InList(ordered), lines[1..])
  {
  }

  lemma PrintItemsCons(text: string, more: seq<string>)
    ensures PrintItems([text] + more) == Wrapped(Li, text) + PrintItems(more)
  {
    assert ([text] + more)[1..] == more;
  }

  lemma TopAfterList(ordered: bool, lines: seq<string>)
    requires ItemRun(lines, ordered) == 0
    ensures Emit(InList(ordered), lines) == [Close(ListTag(ordered))] + Emit(Top, lines)
  {
    if lines != [] {
      LineAfterList(ordered, lines[0]);
      Regroup([Close(ListTag(ordered))], LineTokens(Top, lines[0]), Emit(NextMode(Top, lines[0]), lines[1..]));
    }
  }

  lemma LineAfterList(ordered: bool, s: string)
    requires !(Classify(s).Item? && Classify(s).ordered == ordered)
    ensures LineTokens(InList(ordered), s) == [Close(ListTag(ordered))] + LineTokens(Top, s)
    ensures NextMode(InList(ordered), s) == NextMode(Top, s)
  {
  }

  lemma EmitNextRaw(lines: seq<string>)
    requires lines != [] && !Classify(lines[0]).Fence?
    ensures Emit(InCode, lines) == [Raw(lines[0])] + Emit(InCode, lines[1..])
  {
  }

  lemma PrintCodeCons(line: string, more: seq<string>)
    ensures PrintCode([line] + more) == [Raw(line)] + PrintCode(more)
  {
    assert ([line] + more)[1..] == more;
  }

  lemma EmitCodeEnd(lines: seq<string>)
    requires lines == [] || Classify(lines[0]).Fence?
    ensures Emit(InCode, lines) == [Close(Code), Close(Pre)] + Emit(Top, From(lines, 1))
  {
    if lines == [] {
      assert Emit(Top, []) == [];
    }
  }

  /** Inside a fence it prints the lines up to the next one, closes, and goes on at the top. */
  lemma {:induction false} EmitInCode(lines: seq<string>)
    ensures var n := CodeRun(lines);
      Emit(InCode, lines) == PrintCode(lines[..n]) + ([Close(Code), Close(Pre)] + Emit(Top, From(lines, n + 1)))
  {
    var n := CodeRun(lines);
    if n == 0 {
      EmitCodeEnd(lines);
      assert PrintCode(lines[..0]) == [];
    } else {
      var more := lines[1..][..n - 1];
      EmitNextRaw(lines);
      EmitInCode(lines[1..]);
      PrintCodeCons(lines[0], more);
      assert lines[..n] == [lines[0]] + more;
      assert From(lines[1..], n) == From(lines, n + 1);
      Regroup([Raw(lines[0])], PrintCode(more), [Close(Code), Close(Pre)] + Emit(Top, From(lines, n + 1)));
    }
  }

  lemma EmitFence(lines: seq<string>)
    requires lines != [] && Classify(lines[0]).Fence?
    ensures var n := CodeRun(lines[1..]);
      Emit(Top, lines) == Print(CodeBlock(lines[1..n + 1])) + Emit(Top, From(lines, n + 2))
  {
    var n := CodeRun(lines[1..]);
    EmitOpening(lines);
    EmitInCode(lines[1..]);
    FromRest(lines, n + 1);
    assert lines[1..][..n] == lines[1..n + 1];
    RegroupAround([Open(Pre), Open(Code)], PrintCode(lines[1..n + 1]), [Close(Code), Close(Pre)], Emit(Top, From(lines, n + 2)));
  }

  lemma FromRest(lines: seq<string>, n: nat)
    requires lines != []
    ensures From(lines[1..], n) == From(lines, n + 1)
  {
  }

  lemma EmitOpening(lines: seq<string>)
    requires lines != [] && Classify(lines[0]).Fence?
    ensures Emit(Top, lines) == [Open(Pre), Open(Code)] + Emit(InCode, lines[1..])
  {
  }

  lemma RegroupAround(a: seq<Token>, b: seq<Token>, c: seq<Token>, d: seq<Token>)
    ensures a + (b + (c + d)) == a + b + c + d
  {
  }

  lemma EmitItems(lines: seq<string>)
    requires lines != [] && Classify(lines[0]).Item?
    ensures var ordered := Classify(lines[0]).ordered;
      var n := 1 + ItemRun(lines[1..], ordered);
      Emit(Top, lines) == Print(List(ordered, ItemTexts(lines[..n]))) + Emit(Top, From(lines, n))
  {
    var ordered := Classify(lines[0]).ordered;
    var n := ItemRun(lines, ordered);
    assert n == 1 + ItemRun(lines[1..], ordered) && From(lines, n) == lines[n..];
    EmitFirstItem(lines);
    EmitInList(ordered, lines);
    PrintsAsList(ordered, ItemTexts(lines[..n]), Emit(Top, lines[n..]), Emit(InList(ordered), lines), Emit(Top, lines));
  }

  lemma PrintsAsList(ordered: bool, items: seq<string>, rest: seq<Token>, inside: seq<Token>, all: seq<Token>)
    requires inside == PrintItems(items) + ([Close(ListTag(ordered))] + rest)
    requires all == [Open(ListTag(ordered))] + inside
    ensures all == Print(List(ordered, items)) + rest
  {
    RegroupAround([Open(ListTag(ordered))], PrintItems(items), [Close(ListTag(ordered))], rest);
  }

  /** The first item opens the list; from there on the list might as well have been open. */
  lemma EmitFirstItem(lines: seq<string>)
    requires lines != [] && Classify(lines[0]).Item?
    ensures var ordered := Classify(lines[0]).ordered;
      Emit(Top, lines) == [Open(ListTag(ordered))] + Emit(InList(ordered), lines)
  {
    var mode := InList(Classify(lines[0]).ordered);
    FirstItemTokens(lines[0]);
    Regroup([Open(ListTag(mode.ordered))], LineTokens(mode, lines[0]), Emit(mode, lines[1..]));
  }

  lemma FirstItemTokens(s: string)
    requires Classify(s).Item?
    ensures var mode := InList(Classify(s).ordered);
      && LineTokens(Top, s) == [Open(ListTag(mode.ordered))] + LineTokens(mode, s)
      && NextMode(Top, s) == NextMode(mode, s) == mode
  {
    var mode := InList(Classify(s).ordered);
    assert LineTokens(mode, s) == [] + Wrapped(Li, Classify(s).text) == Wrapped(Li, Classify(s).text);
    assert CloseLists(Top) + [Open(ListTag(mode.ordered))] == [Open(ListTag(mode.ordered))];
  }

  lemma FirstItem(lines: seq<string>, n: nat)
    requires n < |lines| && Classify(lines[0]).Item?
    ensures ItemTexts(lines[..n + 1]) == [Classify(lines[0]).text] + ItemTexts(lines[1..][..n])
  {
    assert lines[..n + 1][1..] == lines[1..][..n];
  }

  lemma PrintedAlone(b: Block)
    ensures PrintAll([b]) == Print(b)
  {
    assert [b][1..] == [];
  }

  lemma {:induction false} PrintAllConcat(a: seq<Block>, b: seq<Block>)
    ensures PrintAll(a + b) == PrintAll(a) + PrintAll(b)
  {
    if a == [] {
      assert a + b == b;
    } else {
      assert (a + b)[1..] == a[1..] + b;
      PrintAllConcat(a[1..], b);
    }
  }

  /** A heading, a paragraph or a blank line stands alone. */
  lemma TopTokens(lines: seq<string>)
    requires lines != [] && !Classify(lines[0]).Fence? && !Classify(lines[0]).Item?
    ensures LineTokens(Top, lines[0]) == PrintAll(FirstBlock(lines).0) && NextMode(Top, lines[0]) == Top
    ensures From(lines, FirstBlock(lines).1) == lines[1..]
  {
    match Classify(lines[0])
    case Heading(n, text) => PrintedAlone(HeadingBlock(n, text));
    case Plain(text) => PrintedAlone(Para(text));
    case Blank =>
  }

  lemma EmitFirst(lines: seq<string>)
    requires lines != []
    ensures Emit(Top, lines) == PrintAll(FirstBlock(lines).0) + Emit(Top, From(lines, FirstBlock(lines).1))
  {
    match Classify(lines[0])
    case Fence =>
      EmitFence(lines);
      PrintedAlone(FirstBlock(lines).0[0]);
    case Item(_, _) =>
      EmitItems(lines);
      PrintedAlone(FirstBlock(lines).0[0]);
    case _ => TopTokens(lines);
  }

  /** The flag machine prints exactly the blocks of the text. */
  lemma {:induction false} EmitterPrintsBlocks(lines: seq<string>)
    ensures Emit(Top, lines) == PrintAll(Blocks(lines))
    decreases |lines|
  {
    if lines == [] {
    } else {
      EmitFirst(lines);
      var rest := From(lines, FirstBlock(lines).1);
      EmitterPrintsBlocks(rest);
      PrintAllConcat(FirstBlock(lines).0, Blocks(rest));
    }
  }

  // ---- nesting -----------------------------------------------------------------------------------------------

  /** May this tag open, given the tags already open, innermost first? */
  predicate MayOpen(t: Tag, stack: seq<Tag>) {
    match t
    case Li => stack == [Ul] || stack == [Ol]
    case Code => stack == [Pre]
    case _ => stack == []
  }

  /** One token over a stack of open tags; none if a tag, an item or a text is out of place. */
  function NestStep(t: Token, stack: seq<Tag>): Option<seq<Tag>> {
    match t
    case Open(g) => if MayOpen(g, stack) then Some([g] + stack) else None
    case Close(g) => if stack != [] && stack[0] == g then Some(stack[1..]) else None
    case Inline(_) => if stack != [] && (stack[0].H? || stack[0].P? || stack[0].Li?) then Some(stack) else None
    case Raw(_) => if stack == [Code, Pre] then Some(stack) else None
  }

  function Nest(tokens: seq<Token>, stack: seq<Tag>): Option<seq<Tag>> {
    if tokens == [] then Some(stack)
    else if NestStep(tokens[0], stack).None? then None
    else Nest(tokens[1..], NestStep(tokens[0], stack).value)
  }

  lemma {:induction false} NestConcat(a: seq<Token>, b: seq<Token>, stack: seq<Tag>)
    requires Nest(a, stack).Some?
    ensures Nest(a + b, stack) == Nest(b, Nest(a, stack).value)
  {
    if a == [] {
      assert a + b == b;
    } else {
      assert (a + b)[1..] == a[1..] + b;
      NestConcat(a[1..], b, NestStep(a[0], stack).value);
    }
  }

  lemma NestOne(t: Token, stack: seq<Tag>)
    ensures Nest([t], stack) == NestStep(t, stack)
  {
    assert [t][1..] == [];
  }

  lemma NestWrapped(tag: Tag, text: string, stack: seq<Tag>)
    requires MayOpen(tag, stack) && (tag.H? || tag.P? || tag.Li?)
    ensures Nest(Wrapped(tag, text), stack) == Some(stack)
  {
    var inside := [tag] + stack;
    assert inside[1..] == stack;
    NestOne(Open(tag), stack);
    NestOne(Inline(text), inside);
    NestOne(Close(tag), inside);
    assert Wrapped(tag, text) == [Open(tag)] + [Inline(text)] + [Close(tag)];
    NestAround([Open(tag)], [Inline(text)], [Close(tag)], stack, inside);
  }

  lemma {:induction false} NestItems(items: seq<string>, tag: Tag)
    requires tag == Ul || tag == Ol
    ensures Nest(PrintItems(items), [tag]) == Some([tag])
  {
    if items == [] {
    } else {
      NestWrapped(Li, items[0], [tag]);
      NestItems(items[1..], tag);
      NestConcat(Wrapped(Li, items[0]), PrintItems(items[1..]), [tag]);
    }
  }

  lemma {:induction false} NestCode(lines: seq<string>)
    ensures Nest(PrintCode(lines), [Code, Pre]) == Some([Code, Pre])
  {
    if lines == [] {
    } else {
      NestOne(Raw(lines[0]), [Code, Pre]);
      NestCode(lines[1..]);
      NestConcat([Raw(lines[0])], PrintCode(lines[1..]), [Code, Pre]);
    }
  }

  lemma NestBlock(b: Block)
    ensures Nest(Print(b), []) == Some([])
  {
    match b
    case HeadingBlock(n, text) => NestWrapped(H(n), text, []);
    case Para(text) => NestWrapped(P, text, []);
    case List(ordered, items) =>
      var tag := ListTag(ordered);
      NestOne(Open(tag), []);
      NestItems(items, tag);
      NestOne(Close(tag), [tag]);
      assert [tag][1..] == [] && [tag] + [] == [tag];
      NestAround([Open(tag)], PrintItems(items), [Close(tag)], [], [tag]);
    case CodeBlock(lines) =>
      NestCodeTags();
      NestCode(lines);
      NestAround([Open(Pre), Open(Code)], PrintCode(lines), [Close(Code), Close(Pre)], [], [Code, Pre]);
  }

  lemma NestAround(open: seq<Token>, inner: seq<Token>, close: seq<Token>, outside: seq<Tag>, inside: seq<Tag>)
    requires Nest(open, outside) == Some(inside) && Nest(inner, inside) == Some(inside) && Nest(close, inside) == Some(outside)
    ensures Nest(open + inner + close, outside) == Some(outside)
  {
    NestConcat(open, inner, outside);
    NestConcat(open + inner, close, outside);
  }

  lemma NestCodeTags()
    ensures Nest([Open(Pre), Open(Code)], []) == Some([Code, Pre])
    ensures Nest([Close(Code), Close(Pre)], [Code, Pre]) == Some([])
  {
    assert [Open(Pre), Open(Code)] == [Open(Pre)] + [Open(Code)] && [Close(Code), Close(Pre)] == [Close(Code)] + [Close(Pre)];
    assert [Pre] + [] == [Pre] && [Code] + [Pre] == [Code, Pre] && [Code, Pre][1..] == [Pre] && [Pre][1..] == [];
    NestOne(Open(Pre), []);
    NestOne(Open(Code), [Pre]);
    NestOne(Close(Code), [Code, Pre]);
    NestOne(Close(Pre), [Pre]);
    NestConcat([Open(Pre)], [Open(Code)], []);
    NestConcat([Close(Code)], [Close(Pre)], [Code, Pre]);
  }

  lemma {:induction false} NestAll(bs: seq<Block>)
    ensures Nest(PrintAll(bs), []) == Some([])
  {
    if bs == [] {
    } else {
      NestBlock(bs[0]);
      NestAll(bs[1..]);
      NestConcat(Print(bs[0]), PrintAll(bs[1..]), []);
    }
  }

  /**
   For every text, the emitted tags are balanced: items sit directly in one list, lists and code
   never contain each other, text sits in a heading, a paragraph or an item, raw lines in a fence.
   */
  lemma EmittedIsNested(lines: seq<string>)
    ensures Nest(Emit(Top, lines), []) == Some([])
  {
    EmitterPrintsBlocks(lines);
    NestAll(Blocks(lines));
  }
}
