/**
 * The ESLint rule `multiline-braces` of client/tools/eslint/multiline-braces.js: when
 * a braced list (object literal, object pattern, named imports or exports, TypeScript
 * type literal) has more than `maxProperties` entries, the opening brace must sit on
 * its own line and each entry on a line of its own. A violation is reported once per
 * node, with a fix that rewrites the braces one entry per line.
 */
module MultilineBraces {
  import opened Wrappers

  /** A brace token: the line it starts on and its character range in the file. */
  datatype Token = Token(line: nat, rangeStart: nat, rangeEnd: nat)

  /** A property, specifier or member: the line it starts on and its source text. */
  datatype Element = Element(line: nat, text: string)

  /** The rule's option object; `maxProperties` may be absent. */
  datatype RuleOptions = RuleOptions(maxProperties: Option<int>)

  /** `(context.options[0] && context.options[0].maxProperties) || 2`. */
  function MaxProperties(options: seq<RuleOptions>): (m: int)
    ensures m != 0
  {
    if |options| > 0 && options[0].maxProperties.Some? && options[0].maxProperties.value != 0
    then options[0].maxProperties.value
    else 2
  }

  /** The limit is 2 unless a nonzero `maxProperties` is given, and it is never 0. */
  lemma MaxPropertiesDefault(options: seq<RuleOptions>)
    ensures MaxProperties(options) != 0
    ensures (|options| == 0 || options[0].maxProperties.None? || options[0].maxProperties == Some(0))
              <==> MaxProperties(options) == 2 && (|options| == 0 || options[0].maxProperties != Some(2))
  {
  }

  // ---------------------------------------------------------------- the fix text

  /** The characters `String.prototype.trim` removes: white space and line terminators. */
  predicate IsJsSpace(c: char)
  {
    c == '\t' || c == '\n' || c == '\r' || c == ' ' || c == '\U{000B}' || c == '\U{000C}'
    || c == '\U{00A0}' || c == '\U{1680}' || ('\U{2000}' <= c <= '\U{200A}')
    || c == '\U{2028}' || c == '\U{2029}' || c == '\U{202F}' || c == '\U{205F}'
    || c == '\U{3000}' || c == '\U{FEFF}'
  }

  /** `s` without its leading white space: a suffix of `s`, and everything cut off was white space. */
  function TrimStart(s: string): (r: string)
    ensures |r| <= |s| && r == s[|s| - |r|..]
    ensures forall i :: 0 <= i < |s| - |r| ==> IsJsSpace(s[i])
    ensures r == [] || !IsJsSpace(r[0])
  {
    if s != [] && IsJsSpace(s[0]) then TrimStart(s[1..]) else s
  }

  /** `s` without its trailing white space: a prefix of `s`, and everything cut off was white space. */
  function TrimEnd(s: string): (r: string)
    ensures |r| <= |s| && r == s[..|r|]
    ensures forall i :: |r| <= i < |s| ==> IsJsSpace(s[i])
    ensures r == [] || !IsJsSpace(r[|r| - 1])
  {
    if s != [] && IsJsSpace(s[|s| - 1]) then TrimEnd(s[..|s| - 1]) else s
  }

  /** `text.trim()`. */
  function Trim(s: string): (r: string)
    ensures exists i, j :: 0 <= i <= j <= |s| && r == s[i..j]
  {
    var u := TrimStart(s);
    var t := TrimEnd(u);
    assert t == s[|s| - |u|..|s| - |u| + |t|];
    t
  }

  /** `text.replace(/[;,]$/, '')`: one final `;` or `,` removed, if there is one. */
  function StripTerminator(s: string): (r: string)
    ensures |s| - 1 <= |r| <= |s| && r == s[..|r|]
    ensures |r| < |s| ==> s[|s| - 1] == ';' || s[|s| - 1] == ','
  {
    if s != [] && (s[|s| - 1] == ';' || s[|s| - 1] == ',') then s[..|s| - 1] else s
  }

  /** The text an element contributes to the fix. */
  function CleanItem(text: string): (c: string)
    ensures |c| <= |text|
    ensures c == [] || !IsJsSpace(c[0])
  {
    StripTerminator(Trim(text))
  }

  /** A cleaned item is the trimmed text, whole or without one final `;` or `,`. */
  lemma CleanItemShape(text: string)
    ensures var t := Trim(text);
      CleanItem(text) == t
      || (t != [] && CleanItem(text) == t[..|t| - 1] && (t[|t| - 1] == ';' || t[|t| - 1] == ','))
  {
  }

  /** The trimmed text begins and ends with no white space. */
  lemma TrimEdges(text: string)
    ensures var t := Trim(text); t == [] || (!IsJsSpace(t[0]) && !IsJsSpace(t[|t| - 1]))
  {
    var u := TrimStart(text);
    var t := TrimEnd(u);
    if t != [] {
      assert t[0] == u[0];
    }
  }

  /** A cleaned item takes no character the source text lacks. */
  lemma CleanItemChars(text: string, ch: char)
    requires ch in CleanItem(text)
    ensures ch in text
  {
    var u := TrimStart(text);
    var t := TrimEnd(u);
    var c := CleanItem(text);
    var i :| 0 <= i < |c| && c[i] == ch;
    assert t[i] == ch;
    assert u[i] == ch;
    assert text[|text| - |u| + i] == ch;
  }

  /** The items joined with `sep` between consecutive ones (`Array.prototype.join`). */
  function Join(items: seq<string>, sep: string): (j: string)
    ensures items != [] ==> |items[0]| <= |j| && j[..|items[0]|] == items[0]
  {
    if items == [] then ""
    else if |items| == 1 then items[0]
    else items[0] + sep + Join(items[1..], sep)
  }

  const Indent: string := "  "

  /** The cleaned text of each element, in order. */
  function CleanItems(elements: seq<Element>): (items: seq<string>)
    ensures |items| == |elements|
    ensures forall i :: 0 <= i < |elements| ==> items[i] == CleanItem(elements[i].text)
  {
    seq(|elements|, i requires 0 <= i < |elements| => CleanItem(elements[i].text))
  }

  /** The items, each indented and followed by a comma, then the closing brace on a line of its own. */
  function FixBody(items: seq<string>): string
  {
    Indent + Join(items, ",\n" + Indent) + ",\n}"
  }

  /** The text the fixer puts in place of everything from the opening to the closing brace. */
  function FixText(elements: seq<Element>): (t: string)
    ensures |t| >= 2 && t[0] == '{' && t[1] == '\n' && t[|t| - 1] == '}'
  {
    "{" + "\n" + FixBody(CleanItems(elements))
  }

  /**
   * `s` split at each line feed. ESLint also breaks lines at a carriage return and at
   * U+2028 and U+2029; these are taken as ordinary characters here, so the layout
   * stated below holds for element texts that contain none of them either.
   */
  function Lines(s: string): (r: seq<string>)
    ensures |r| >= 1
  {
    if s == [] then [""]
    else if s[0] == '\n' then [""] + Lines(s[1..])
    else
      var rest := Lines(s[1..]);
      [[s[0]] + rest[0]] + rest[1..]
  }

  /** A line with no line feed, then a line feed, then the rest. */
  lemma {:induction false} LinesAfterLine(a: string, b: string)
    requires '\n' !in a
    ensures Lines(a + "\n" + b) == [a] + Lines(b)
    decreases |a|
  {
    if a == [] {
      assert (a + "\n" + b)[1..] == b;
    } else {
      assert (a + "\n" + b)[1..] == a[1..] + "\n" + b;
      LinesAfterLine(a[1..], b);
      assert [a[0]] + a[1..] == a;
    }
  }

  /** Each item on a line of its own, indented and followed by a comma. */
  function Indented(items: seq<string>): seq<string>
  {
    if items == [] then [] else [Indent + items[0] + ","] + Indented(items[1..])
  }

  /** The lines of the fix text after its opening line. */
  lemma {:induction false} FixBodyLines(items: seq<string>)
    requires |items| >= 1
    requires forall i :: 0 <= i < |items| ==> '\n' !in items[i]
    ensures Lines(FixBody(items)) == Indented(items) + ["}"]
    decreases |items|
  {
    var head := Indent + items[0] + ",";
    assert '\n' !in head by {
      assert forall k :: 0 <= k < |head| ==> head[k] == (Indent + items[0] + ",")[k];
    }
    if |items| == 1 {
      assert FixBody(items) == head + "\n" + "}";
      LinesAfterLine(head, "}");
      var close: string := "}";
      assert |close| == 1 && close[0] == '}' && close[1..] == [];
      assert Lines(close[1..]) == [""];
      assert [close[0]] + "" == close;
      assert Lines(close) == [close];
      assert items[1..] == [];
      assert Indented(items) == [head];
    } else {
      var rest := FixBody(items[1..]);
      assert FixBody(items) == head + "\n" + rest;
      LinesAfterLine(head, rest);
      FixBodyLines(items[1..]);
    }
  }

  /** The lines of a braced list of single-line items. */
  lemma BracedLines(items: seq<string>)
    requires |items| >= 1
    requires forall i :: 0 <= i < |items| ==> '\n' !in items[i]
    ensures Lines("{" + "\n" + FixBody(items)) == ["{"] + Indented(items) + ["}"]
  {
    var middle := Indented(items);
    FixBodyLines(items);
    LinesBefore("{", FixBody(items), middle + ["}"]);
    Framed("{", middle, "}");
  }

  /** Proof helper for `BracedLines`: concatenating lines is associative. */
  lemma Framed(first: string, middle: seq<string>, last: string)
    ensures [first] + (middle + [last]) == [first] + middle + [last]
  {
  }

  /** Proof helper for `BracedLines`: `LinesAfterLine` for a text whose lines are known. */
  lemma LinesBefore(a: string, b: string, bLines: seq<string>)
    requires '\n' !in a && Lines(b) == bLines
    ensures Lines(a + "\n" + b) == [a] + bLines
  {
    LinesAfterLine(a, b);
  }

  /** Cleaning an element that holds no line feed leaves none. */
  lemma CleanItemsSingleLine(elements: seq<Element>)
    requires forall i :: 0 <= i < |elements| ==> '\n' !in elements[i].text
    ensures forall i :: 0 <= i < |elements| ==> '\n' !in CleanItems(elements)[i]
  {
    forall i | 0 <= i < |elements| ensures '\n' !in CleanItems(elements)[i] {
      if '\n' in CleanItem(elements[i].text) {
        CleanItemChars(elements[i].text, '\n');
      }
    }
  }

  /**
   * When no element's text spans several lines, the fix puts the opening brace on a
   * line of its own, then each element on its own line in order, then the closing brace.
   * Lines are split at line feeds only (see `Lines`).
   */
  lemma FixedLayout(elements: seq<Element>)
    requires |elements| >= 1
    requires forall i :: 0 <= i < |elements| ==> '\n' !in elements[i].text
    ensures Lines(FixText(elements)) == ["{"] + Indented(CleanItems(elements)) + ["}"]
  {
    CleanItemsSingleLine(elements);
    BracedLines(CleanItems(elements));
  }

  // ---------------------------------------------------------------- the reports

  /** The decimal digits of `n`. */
  function NatToString(n: nat): (s: string)
    ensures |s| >= 1 && forall i :: 0 <= i < |s| ==> '0' <= s[i] <= '9'
  {
    if n < 10 then [['0', '1', '2', '3', '4', '5', '6', '7', '8', '9'][n]]
    else NatToString(n / 10) + NatToString(n % 10)
  }

  /** The number a string of decimal digits denotes. */
  function DecimalValue(s: string): nat
    requires forall i :: 0 <= i < |s| ==> '0' <= s[i] <= '9'
  {
    if s == [] then 0 else DecimalValue(s[..|s| - 1]) * 10 + (s[|s| - 1] - '0') as nat
  }

  /** Reading the digits back gives the number. */
  lemma {:induction false} NatToStringValue(n: nat)
    ensures DecimalValue(NatToString(n)) == n
  {
    if n >= 10 {
      var s := NatToString(n);
      var hi := NatToString(n / 10);
      assert s == hi + NatToString(n % 10);
      assert s[..|s| - 1] == hi;
      NatToStringValue(n / 10);
    }
  }

  /** How JavaScript prints an integer when it is concatenated to a string. */
  function IntToString(n: int): string
  {
    if n < 0 then "-" + NatToString(-n) else NatToString(n)
  }

  datatype MessageKind = OpeningBrace | EachProperty

  /** The report's message, which quotes the limit as JavaScript prints it. */
  function MessageText(kind: MessageKind, maxProperties: int): (m: string)
    ensures var n := IntToString(maxProperties);
      |m| >= |n| + 7 && m[|m| - |n| - 7..|m| - 7] == n && m[|m| - 7..] == " items."
  {
    match kind
    case OpeningBrace =>
      "Opening brace should be on a separate line when more than " + IntToString(maxProperties) + " items."
    case EachProperty =>
      "Each property should be on its own line when more than " + IntToString(maxProperties) + " items."
  }

  /** A fix: replace the characters in [rangeStart, rangeEnd) by `text`. */
  datatype Fix = Fix(rangeStart: nat, rangeEnd: nat, text: string)

  datatype Report = Report(kind: MessageKind, message: string, fix: Fix)

  /** The report of a node: its message, and a fix spanning the opening brace's start to the closing brace's end. */
  function ReportFor(kind: MessageKind, elements: seq<Element>, openBrace: Token, closeBrace: Token, maxProperties: int): Report
  {
    Report(kind, MessageText(kind, maxProperties), Fix(openBrace.rangeStart, closeBrace.rangeEnd, FixText(elements)))
  }

  /** No two consecutive elements start on the same line. */
  predicate OwnLines(elements: seq<Element>)
  {
    forall i :: 1 <= i < |elements| ==> elements[i].line != elements[i - 1].line
  }

  /**
   * What `checkNode` does, stated whole: nothing without both braces or with at most
   * `maxProperties` elements; a TypeError from `elements[0]` when the list is empty
   * anyway (only a negative limit lets it through); otherwise one "Opening brace"
   * report when the brace shares the first element's line, else one "Each property"
   * report exactly when two consecutive elements share a line.
   */
  ghost predicate Checked(elements: seq<Element>, openBrace: Option<Token>, closeBrace: Option<Token>,
                          maxProperties: int, reports: seq<Report>, threw: bool)
  {
    if openBrace.None? || closeBrace.None? || |elements| <= maxProperties then reports == [] && !threw
    else if elements == [] then reports == [] && threw
    else if openBrace.value.line == elements[0].line then
      !threw && reports == [ReportFor(OpeningBrace, elements, openBrace.value, closeBrace.value, maxProperties)]
    else if OwnLines(elements) then !threw && reports == []
    else !threw && reports == [ReportFor(EachProperty, elements, openBrace.value, closeBrace.value, maxProperties)]
  }

  /** `checkNode`: the reports it passes to `context.report`, and whether it throws. */
  method CheckNode(elements: seq<Element>, openBrace: Option<Token>, closeBrace: Option<Token>, maxProperties: int)
    returns (reports: seq<Report>, threw: bool)
    ensures Checked(elements, openBrace, closeBrace, maxProperties, reports, threw)
    ensures |reports| <= 1
  {
    reports, threw := [], false;
    if openBrace.None? || closeBrace.None? {
      return;
    }
    if |elements| <= maxProperties {
      return;
    }
    if elements == [] {
      threw := true;
      return;
    }
    if openBrace.value.line == elements[0].line {
      reports := reports + [ReportFor(OpeningBrace, elements, openBrace.value, closeBrace.value, maxProperties)];
      return;
    }
    var lastLine: Option<nat> := None;
    var i := 0;
    while i < |elements|
      invariant 0 <= i <= |elements|
      invariant forall j :: 1 <= j < i ==> elements[j].line != elements[j - 1].line
      invariant lastLine == if i == 0 then None else Some(elements[i - 1].line)
    {
      if lastLine == Some(elements[i].line) {
        reports := reports + [ReportFor(EachProperty, elements, openBrace.value, closeBrace.value, maxProperties)];
        return;
      }
      lastLine := Some(elements[i].line);
      i := i + 1;
    }
  }

  // ---------------------------------------------------------------- the visitors

  datatype SpecifierType = ImportSpecifier | ImportDefaultSpecifier | ImportNamespaceSpecifier | ExportSpecifier

  datatype Specifier = Specifier(specType: SpecifierType, element: Element)

  /** The node types the rule visits, with the lists it reads from them. */
  datatype Node =
    | ObjectExpression(properties: seq<Element>)
    | ObjectPattern(properties: seq<Element>)
    | ImportDeclaration(specifiers: seq<Specifier>)
    | ExportNamedDeclaration(specifiers: seq<Specifier>)
    | TSTypeLiteral(members: Option<seq<Element>>)

  /** `specifiers.filter((s) => s.type === t)`. */
  function SpecifiersOf(specs: seq<Specifier>, t: SpecifierType): (r: seq<Element>)
    ensures |r| <= |specs|
    ensures forall e :: e in r <==> Specifier(t, e) in specs
  {
    if specs == [] then []
    else
      assert specs == [specs[0]] + specs[1..];
      (if specs[0].specType == t then [specs[0].element] else []) + SpecifiersOf(specs[1..], t)
  }

  /** The filter keeps source order: the kept specifiers of two parts follow each other. */
  lemma {:induction false} SpecifiersOfAppend(a: seq<Specifier>, b: seq<Specifier>, t: SpecifierType)
    ensures SpecifiersOf(a + b, t) == SpecifiersOf(a, t) + SpecifiersOf(b, t)
    decreases |a|
  {
    if a == [] {
      assert a + b == b;
    } else {
      assert (a + b)[0] == a[0] && (a + b)[1..] == a[1..] + b;
      SpecifiersOfAppend(a[1..], b, t);
    }
  }

  /** The elements a visitor hands to `checkNode`, or None when it returns first. */
  function VisitedElements(node: Node, maxProperties: int): (v: Option<seq<Element>>)
    ensures v.Some? && !node.TSTypeLiteral? ==> v.value != []
    ensures v.Some? && node.TSTypeLiteral? ==> |v.value| > maxProperties
  {
    match node
    case ObjectExpression(ps) => if ps == [] then None else Some(ps)
    case ObjectPattern(ps) => if ps == [] then None else Some(ps)
    case ImportDeclaration(ss) =>
      var named := SpecifiersOf(ss, ImportSpecifier);
      if named == [] then None else Some(named)
    case ExportNamedDeclaration(ss) =>
      var named := SpecifiersOf(ss, ExportSpecifier);
      if named == [] then None else Some(named)
    case TSTypeLiteral(ms) => if ms.None? || |ms.value| <= maxProperties then None else ms
  }

  /**
   * The visitor for `node`, given the first `{` and last `}` tokens of the node: at
   * most one report; nothing for an empty object, an import or export without named
   * specifiers, or a type literal with at most `maxProperties` members; otherwise
   * `checkNode` on the visited elements. Only an empty type literal under a negative
   * limit throws.
   */
  method Visit(node: Node, openBrace: Option<Token>, closeBrace: Option<Token>, maxProperties: int)
    returns (reports: seq<Report>, threw: bool)
    ensures |reports| <= 1
    ensures VisitedElements(node, maxProperties).None? ==> reports == [] && !threw
    ensures VisitedElements(node, maxProperties).Some? ==>
              Checked(VisitedElements(node, maxProperties).value, openBrace, closeBrace, maxProperties, reports, threw)
    ensures threw ==> node == TSTypeLiteral(Some([])) && maxProperties < 0
  {
    var visited := VisitedElements(node, maxProperties);
    if visited.None? {
      return [], false;
    }
    reports, threw := CheckNode(visited.value, openBrace, closeBrace, maxProperties);
  }

  /** Skipped nodes, case by case. */
  lemma SkippedNodes(ps: seq<Element>, ss: seq<Specifier>, ms: seq<Element>, maxProperties: int)
    ensures VisitedElements(ObjectExpression([]), maxProperties) == None
    ensures VisitedElements(ObjectPattern([]), maxProperties) == None
    ensures (forall s :: s in ss ==> s.specType != ImportSpecifier) ==> VisitedElements(ImportDeclaration(ss), maxProperties) == None
    ensures (forall s :: s in ss ==> s.specType != ExportSpecifier) ==> VisitedElements(ExportNamedDeclaration(ss), maxProperties) == None
    ensures VisitedElements(TSTypeLiteral(None), maxProperties) == None
    ensures |ms| <= maxProperties ==> VisitedElements(TSTypeLiteral(Some(ms)), maxProperties) == None
  {
    if SpecifiersOf(ss, ImportSpecifier) != [] {
      assert Specifier(ImportSpecifier, SpecifiersOf(ss, ImportSpecifier)[0]) in ss;
    }
    if SpecifiersOf(ss, ExportSpecifier) != [] {
      assert Specifier(ExportSpecifier, SpecifiersOf(ss, ExportSpecifier)[0]) in ss;
    }
  }
}
