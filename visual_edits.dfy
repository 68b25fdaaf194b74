/**
 * The text and style helpers of the visual-edit bridge (`src/visual-edits/VisualEditsMessenger.jsx`):
 * reading the `path:line:column` location an element carries, collecting an element's own
 * text, escaping edited text for a JSX template literal, dropping repeated messages to the
 * parent window, CSS property names, the normalised computed styles, and the record of the
 * styles applied to each element. The DOM, `getComputedStyle`, `postMessage` and
 * `JSON.stringify` are parameters: an element's children, a computed value, the list of posted
 * messages, and a function that gives a message's JSON text or `None` when it throws.
 */
module VisualEdits {
  import opened JsLib

  // ---------------------------------------------------------------------------
  // Element locations

  datatype OrchidsLocation = OrchidsLocation(filePath: string, line: int, column: int)

  /** `part || "0"`. */
  function OrZero(part: string): string {
    if part == "" then "0" else part
  }

  /**
   * The location `parseOrchidsId` reads: the last part is the column, the one before it the
   * line, and the rest joined by ':' the file path; fewer than three parts, or a line or
   * column that is not a number, give nothing.
   */
  function ParsedOrchidsId(orchidsId: string): (r: Option<OrchidsLocation>)
    ensures |Split(orchidsId, ':')| < 3 ==> r.None?
  {
    var parts := Split(orchidsId, ':');
    if |parts| < 3 then None else LocationOfParts(parts)
  }

  /** The location read from at least three parts: path parts, then line, then column. */
  function LocationOfParts(parts: seq<string>): Option<OrchidsLocation>
    requires |parts| >= 3
  {
    var column := ParseInt(OrZero(parts[|parts| - 1]));
    var line := ParseInt(OrZero(parts[|parts| - 2]));
    if line.None? || column.None? then None
    else Some(OrchidsLocation(Join(parts[..|parts| - 2], ':'), line.value, column.value))
  }

  /** `parseOrchidsId`, popping the column and then the line off the split parts. */
  method ParseOrchidsId(orchidsId: string) returns (r: Option<OrchidsLocation>)
    ensures r == ParsedOrchidsId(orchidsId)
  {
    var all := Split(orchidsId, ':');
    if |all| < 3 {
      assert ParsedOrchidsId(orchidsId) == None;
      return None;
    }
    assert ParsedOrchidsId(orchidsId) == LocationOfParts(all);
    var parts := all;
    var columnPart := parts[|parts| - 1];
    parts := parts[..|parts| - 1];
    assert columnPart == all[|all| - 1];
    var column := ParseInt(OrZero(columnPart));
    var linePart := parts[|parts| - 1];
    parts := parts[..|parts| - 1];
    assert linePart == all[|all| - 2] && parts == all[..|all| - 2];
    var line := ParseInt(OrZero(linePart));
    var filePath := Join(parts, ':');
    assert LocationOfParts(all) ==
      if line.None? || column.None? then None else Some(OrchidsLocation(filePath, line.value, column.value));
    if line.None? || column.None? {
      return None;
    }
    return Some(OrchidsLocation(filePath, line.value, column.value));
  }

  /**
   * For any path, however many colons it holds, followed by a line part and a column part
   * without colons: the path is read back whole, and the line and column are what `parseInt`
   * reads from their parts (an empty part reading as 0); either one unreadable gives nothing.
   */
  lemma ParsedOrchidsIdOfParts(path: string, linePart: string, columnPart: string)
    requires ':' !in linePart && ':' !in columnPart
    ensures var r := ParsedOrchidsId(path + [':'] + linePart + [':'] + columnPart);
      var line, column := ParseInt(OrZero(linePart)), ParseInt(OrZero(columnPart));
      && (r.None? <==> line.None? || column.None?)
      && (r.Some? ==> r.value == OrchidsLocation(path, line.value, column.value))
  {
    var front := path + [':'] + linePart;
    SplitSnoc(path, ':', linePart);
    SplitSnoc(front, ':', columnPart);
    var parts := Split(front + [':'] + columnPart, ':');
    assert parts == Split(path, ':') + [linePart] + [columnPart];
    assert parts[..|parts| - 2] == Split(path, ':');
    JoinSplit(path, ':');
  }

  lemma NoColonInIntToString(n: int)
    ensures ':' !in IntToString(n)
  {
    var m: nat := if n < 0 then -n else n;
    var d := NatToString(m);
    assert forall i :: 0 <= i < |d| ==> IsDigit(d[i]);
    assert IntToString(n) == if n < 0 then "-" + d else d;
  }

  /** The location written as `path:line:column` reads back as the same location. */
  lemma ParsedOrchidsIdRoundTrip(path: string, line: int, column: int)
    ensures ParsedOrchidsId(path + [':'] + IntToString(line) + [':'] + IntToString(column))
         == Some(OrchidsLocation(path, line, column))
  {
    NoColonInIntToString(line);
    NoColonInIntToString(column);
    SignStrippedOfIntToString(line);
    SignStrippedOfIntToString(column);
    ParseIntOfIntToString(line);
    ParseIntOfIntToString(column);
    ParsedOrchidsIdOfParts(path, IntToString(line), IntToString(column));
  }

  /** Empty line and column parts read as line 0, column 0. */
  lemma ParsedOrchidsIdEmptyParts(path: string)
    ensures ParsedOrchidsId(path + [':'] + [] + [':'] + []) == Some(OrchidsLocation(path, 0, 0))
  {
    assert IntToString(0) == "0";
    ParseIntOfIntToString(0);
    ParsedOrchidsIdOfParts(path, [], []);
  }

  // ---------------------------------------------------------------------------
  // An element's own text

  /** A child node: a text node (whose `textContent` may be null) or any other node. */
  datatype Node = TextNode(content: Option<string>) | OtherNode

  /** The text of the text nodes among the children, in order; a null content adds nothing. */
  function DirectText(children: seq<Node>): string {
    if children == [] then []
    else
      var last := children[|children| - 1];
      DirectText(children[..|children| - 1])
        + (if last.TextNode? && last.content.Some? then last.content.value else [])
  }

  /** `extractDirectTextContent`: one pass over the child nodes, appending each text node's content. */
  method ExtractDirectTextContent(children: seq<Node>) returns (text: string)
    ensures text == DirectText(children)
  {
    text := "";
    for i := 0 to |children|
      invariant text == DirectText(children[..i])
    {
      assert children[..i + 1][..i] == children[..i];
      var node := children[i];
      if node.TextNode? {
        text := text + (if node.content.Some? then node.content.value else "");
      }
    }
    assert children[..|children|] == children;
  }

  /** The own text of two runs of children is the text of the first followed by that of the second. */
  lemma {:induction false} DirectTextAppend(a: seq<Node>, b: seq<Node>)
    ensures DirectText(a + b) == DirectText(a) + DirectText(b)
    decreases |b|
  {
    if b == [] {
      assert a + b == a;
    } else {
      var ab := a + b;
      assert ab[..|ab| - 1] == a + b[..|b| - 1];
      DirectTextAppend(a, b[..|b| - 1]);
    }
  }

  /** Nodes other than text nodes add nothing, and a lone text node gives its content. */
  lemma DirectTextNodes(children: seq<Node>, s: string)
    ensures DirectText(children + [OtherNode]) == DirectText(children)
    ensures DirectText(children + [TextNode(Some(s))]) == DirectText(children) + s
  {
    assert (children + [OtherNode])[..|children|] == children;
    assert (children + [TextNode(Some(s))])[..|children|] == children;
  }

  // ---------------------------------------------------------------------------
  // Multi-line text as a JSX template literal

  /**
   * The text a template-literal body stands for, for the escapes `\n`, `\\`, `\`` and `\$`:
   * `None` where the body would end the literal (an unescaped backquote), open a
   * substitution (`${`), or use an escape beyond these four.
   */
  function TemplateValue(body: string): Option<string>
    decreases |body|
  {
    if body == [] then Some([])
    else if body[0] == '`' then None
    else if body[0] == '$' && |body| > 1 && body[1] == '{' then None
    else if body[0] == '\\' then
      if |body| == 1 || body[1] !in ['n', '\\', '`', '$'] then None
      else Prepend(if body[1] == 'n' then '\n' else body[1], TemplateValue(body[2..]))
    else Prepend(body[0], TemplateValue(body[1..]))
  }

  function Prepend(c: char, rest: Option<string>): Option<string> {
    if rest.None? then None else Some([c] + rest.value)
  }

  /** As written: `text.replace(/\n/g, "\\n")`, which escapes line breaks only. */
  function NewlinesEscaped(text: string): (r: string)
    ensures '\n' !in r
  {
    if text == [] then []
    else (if text[0] == '\n' then ['\\', 'n'] else [text[0]]) + NewlinesEscaped(text[1..])
  }

  /** The escape of one character that keeps it literal inside a template literal. */
  function EscapedChar(c: char): string {
    if c == '\n' then ['\\', 'n']
    else if c == '\\' || c == '`' || c == '$' then ['\\', c]
    else [c]
  }

  /** Line breaks, backslashes, backquotes and dollar signs all escaped. */
  function TemplateEscaped(text: string): (r: string)
    ensures '\n' !in r
  {
    if text == [] then [] else EscapedChar(text[0]) + TemplateEscaped(text[1..])
  }

  /** `wrapMultiline` as written. */
  function WrapMultilineAsWritten(text: string): string {
    if '\n' in text then "{`" + NewlinesEscaped(text) + "`}" else text
  }

  /** `wrapMultiline` with every character the literal would misread escaped. */
  function WrapMultiline(text: string): string {
    if '\n' in text then "{`" + TemplateEscaped(text) + "`}" else text
  }

  lemma TemplateValueOfEscapedChar(c: char, rest: string)
    ensures TemplateValue(EscapedChar(c) + rest) == Prepend(c, TemplateValue(rest))
  {
    var s := EscapedChar(c) + rest;
    if |EscapedChar(c)| == 2 {
      assert s[2..] == rest;
    } else {
      assert s[1..] == rest;
    }
  }

  /** The escaped text, read as a template literal, is the text itself. */
  lemma {:induction false} TemplateEscapedReadsBack(text: string)
    ensures TemplateValue(TemplateEscaped(text)) == Some(text)
  {
    if text != [] {
      TemplateEscapedReadsBack(text[1..]);
      TemplateValueOfEscapedChar(text[0], TemplateEscaped(text[1..]));
      assert [text[0]] + text[1..] == text;
    }
  }

  /**
   * Text without a line break is left alone; text with one is wrapped in "{`" and "`}", holds
   * no raw line break, and its body reads back as the text.
   */
  lemma WrapMultilineSpec(text: string)
    ensures '\n' !in text ==> WrapMultiline(text) == text
    ensures '\n' in text ==>
      var w := WrapMultiline(text);
      && |w| >= 4 && w[..2] == "{`" && w[|w| - 2..] == "`}"
      && '\n' !in w
      && TemplateValue(w[2..|w| - 2]) == Some(text)
  {
    if '\n' in text {
      var body := TemplateEscaped(text);
      var w := WrapMultiline(text);
      assert w == "{`" + body + "`}";
      assert w[2..|w| - 2] == body;
      TemplateEscapedReadsBack(text);
    }
  }

  /** The code as written agrees with the correction on text with no backslash, backquote or dollar sign. */
  lemma {:induction false} NewlinesEscapedAgrees(text: string)
    requires '\\' !in text && '`' !in text && '$' !in text
    ensures NewlinesEscaped(text) == TemplateEscaped(text)
    ensures WrapMultilineAsWritten(text) == WrapMultiline(text)
  {
    if text != [] {
      assert text[1..] <= text[1..];
      assert forall c :: c in text[1..] ==> c in text;
      NewlinesEscapedAgrees(text[1..]);
    }
  }

  lemma EscapedNewlineReads(rest: string)
    ensures TemplateValue(['\\', 'n'] + rest) == Prepend('\n', TemplateValue(rest))
  {
    var s := ['\\', 'n'] + rest;
    assert s[0] == '\\' && s[1] == 'n' && s[2..] == rest;
  }

  /**
   * As written, a line of text holding a backslash followed by `n` comes back from the
   * template literal as a second line break, and a backquote ends the literal early.
   */
  lemma WrapMultilineAsWrittenMisreads()
    ensures var text := ['\\', 'n', '\n'];
      var w := WrapMultilineAsWritten(text);
      w[2..|w| - 2] == ['\\', 'n', '\\', 'n'] && TemplateValue(w[2..|w| - 2]) == Some(['\n', '\n'])
    ensures var text := ['`', '\n'];
      var w := WrapMultilineAsWritten(text);
      w[2..|w| - 2] == ['`', '\\', 'n'] && TemplateValue(w[2..|w| - 2]).None?
  {
    var t1 := ['\\', 'n', '\n'];
    assert '\n' in t1 by { assert t1[2] == '\n'; }
    assert NewlinesEscaped(t1) == ['\\', 'n', '\\', 'n'] by {
      assert t1[2..] == ['\n'] && t1[1..] == ['n', '\n'];
      assert NewlinesEscaped(t1[2..]) == ['\\', 'n'];
      assert NewlinesEscaped(t1[1..]) == ['n', '\\', 'n'];
    }
    var b1 := ['\\', 'n', '\\', 'n'];
    assert TemplateValue(b1) == Some(['\n', '\n']) by {
      var b2 := ['\\', 'n'];
      EscapedNewlineReads([]);
      assert ['\\', 'n'] + [] == b2;
      var e: string := [];
      assert ['\n'] + e == ['\n'];
      assert TemplateValue(b2) == Some(['\n']);
      EscapedNewlineReads(b2);
      assert ['\\', 'n'] + b2 == b1 && ['\n'] + ['\n'] == ['\n', '\n'];
    }
    var t2 := ['`', '\n'];
    assert '\n' in t2 by { assert t2[1] == '\n'; }
    assert NewlinesEscaped(t2) == ['`', '\\', 'n'] by {
      assert t2[1..] == ['\n'];
      assert NewlinesEscaped(t2[1..]) == ['\\', 'n'];
    }
  }

  // ---------------------------------------------------------------------------
  // CSS property names

  /** `replace(/([A-Z])/g, "-$1")`: a dash before every capital letter. */
  function Dashed(property: string): (r: string)
  {
    if property == [] then []
    else (if IsUpper(property[0]) then ['-', property[0]] else [property[0]]) + Dashed(property[1..])
  }

  /** The CSS name of a style property: the dashed name, lower-cased. */
  function CssProperty(property: string): string {
    ToLower(Dashed(property))
  }

  /** React's camelCase name of a CSS property: a dash followed by a small letter becomes that capital letter. */
  function CamelCase(css: string): string
    decreases |css|
  {
    if css == [] then []
    else if css[0] == '-' && |css| > 1 && 'a' <= css[1] <= 'z' then [(css[1] as int - 32) as char] + CamelCase(css[2..])
    else [css[0]] + CamelCase(css[1..])
  }

  function CapitalCount(property: string): nat {
    if property == [] then 0 else (if IsUpper(property[0]) then 1 else 0) + CapitalCount(property[1..])
  }

  lemma ToLowerAppend(a: string, b: string)
    ensures ToLower(a + b) == ToLower(a) + ToLower(b)
  {
  }

  /**
   * The CSS name has no capital letter, is one character longer per capital letter, and for a
   * property name without dashes turns back into it: `backgroundColor` and
   * `background-color` name the same property.
   */
  lemma {:induction false} CssPropertySpec(property: string)
    ensures forall i :: 0 <= i < |CssProperty(property)| ==> !IsUpper(CssProperty(property)[i])
    ensures |CssProperty(property)| == |property| + CapitalCount(property)
    ensures '-' !in property ==> CamelCase(CssProperty(property)) == property
  {
    if property != [] {
      var c, rest := property[0], property[1..];
      CssPropertySpec(rest);
      var head := if IsUpper(c) then ['-', c] else [c];
      assert Dashed(property) == head + Dashed(rest);
      ToLowerAppend(head, Dashed(rest));
      if '-' !in property {
        assert '-' !in rest by {
          assert forall x :: x in rest ==> x in property;
        }
        var r := CssProperty(property);
        if IsUpper(c) {
          assert r == ['-', LowerChar(c)] + CssProperty(rest);
          assert r[2..] == CssProperty(rest);
          assert (LowerChar(c) as int - 32) as char == c;
        } else {
          assert r == [c] + CssProperty(rest);
          assert r[1..] == CssProperty(rest);
        }
      }
    }
  }

  // ---------------------------------------------------------------------------
  // Normalised computed styles

  /** The font-weight case: the integer `parseInt` reads, as text, else the value or "400" when it is empty. */
  function FontWeight(value: string): string {
    match ParseInt(value)
    case Some(weight) => IntToString(weight)
    case None => if value == "" then "400" else value
  }

  /** `normalizeValue(value, property)`. */
  function NormalizeValue(value: string, property: string): string {
    if property == "backgroundColor"
       && (value == "rgba(0, 0, 0, 0)" || value == "rgb(0, 0, 0, 0)" || value == "transparent" || value == "") then "transparent"
    else if property == "backgroundImage" && (value == "none" || value == "") then "none"
    else if property == "textDecoration" && (Contains(value, "none") || value == "") then "none"
    else if property == "fontStyle" && (value == "normal" || value == "") then "normal"
    else if property == "fontWeight" then FontWeight(value)
    else if property == "opacity" && (value == "1" || value == "") then "1"
    else if (Contains(property, "padding") || Contains(property, "margin")) && (value == "0px" || value == "0") then "0"
    else if property == "borderRadius" && (value == "0px" || value == "0") then "0"
    else if property == "letterSpacing" && (value == "normal" || value == "0px") then "normal"
    else if property == "gap" && (value == "normal" || value == "0px") then "normal"
    else value
  }

  /** The properties `normalizeValue` treats specially by name. */
  predicate NamedSpecially(property: string) {
    property in {"backgroundColor", "backgroundImage", "textDecoration", "fontStyle", "fontWeight",
                 "opacity", "borderRadius", "letterSpacing", "gap"}
  }

  /**
   * Zero padding and margin read "0"; every transparent background reads "transparent"; a
   * font weight `parseInt` can read becomes that integer's text, and an empty one "400"; any
   * property not handled by name, or by a padding or margin name, keeps its value.
   */
  lemma NormalizeValueSpec(value: string, property: string)
    ensures (&& !NamedSpecially(property) && (Contains(property, "padding") || Contains(property, "margin"))
             && (value == "0px" || value == "0")) ==> NormalizeValue(value, property) == "0"
    ensures property == "backgroundColor" && value in {"rgba(0, 0, 0, 0)", "rgb(0, 0, 0, 0)", "transparent", ""}
      ==> NormalizeValue(value, property) == "transparent"
    ensures property == "fontWeight" && ParseInt(value).Some? ==> NormalizeValue(value, property) == IntToString(ParseInt(value).value)
    ensures property == "fontWeight" && value == "" ==> NormalizeValue(value, property) == "400"
    ensures (!NamedSpecially(property) && !Contains(property, "padding") && !Contains(property, "margin"))
      ==> NormalizeValue(value, property) == value
  {
    NormalizeSpacing(value, property);
    NormalizeBackground(value, property);
    NormalizeFontWeight(value, property);
    NormalizeOther(value, property);
  }

  lemma NormalizeSpacing(value: string, property: string)
    ensures (&& !NamedSpecially(property) && (Contains(property, "padding") || Contains(property, "margin"))
             && (value == "0px" || value == "0")) ==> NormalizeValue(value, property) == "0"
  {
  }

  lemma NormalizeBackground(value: string, property: string)
    ensures property == "backgroundColor" && value in {"rgba(0, 0, 0, 0)", "rgb(0, 0, 0, 0)", "transparent", ""}
      ==> NormalizeValue(value, property) == "transparent"
  {
  }

  lemma NormalizeFontWeight(value: string, property: string)
    ensures property == "fontWeight" && ParseInt(value).Some? ==> NormalizeValue(value, property) == IntToString(ParseInt(value).value)
    ensures property == "fontWeight" && value == "" ==> NormalizeValue(value, property) == "400"
  {
    if property == "fontWeight" && value == "" {
      assert LeadingDigits(SignStripped(TrimStart(value))) == [];
    }
  }

  lemma NormalizeOther(value: string, property: string)
    ensures (!NamedSpecially(property) && !Contains(property, "padding") && !Contains(property, "margin"))
      ==> NormalizeValue(value, property) == value
  {
  }

  /** A font weight read once reads the same again. */
  lemma FontWeightStable(value: string)
    ensures FontWeight(FontWeight(value)) == FontWeight(value)
  {
    match ParseInt(value)
    case Some(weight) =>
      ParseIntOfIntToString(weight);
    case None =>
      if value == "" {
        FourHundred();
      }
  }

  lemma FourHundred()
    ensures IntToString(400) == "400"
    ensures ParseInt("400") == Some(400)
  {
    assert NatToString(4) == ['4'];
    assert NatToString(40) == ['4', '0'];
    assert NatToString(400) == ['4', '0', '0'];
    ParseIntOfIntToString(400);
  }

  // ---------------------------------------------------------------------------
  // Dropping repeated messages

  /** The dedup state after a run of messages: what was posted, and the last key kept. */
  datatype DedupState<T> = DedupState(posted: seq<T>, lastKey: string)

  /**
   * `postMessageDedup` for each message in turn, from the last key `lastKey`: a message whose
   * JSON text equals the last key is dropped; otherwise it is posted, and its text, when
   * `stringify` gives one, becomes the last key.
   */
  function Dedup<T>(lastKey: string, messages: seq<T>, stringify: T -> Option<string>): DedupState<T> {
    if messages == [] then DedupState([], lastKey)
    else
      var before := Dedup(lastKey, messages[..|messages| - 1], stringify);
      var m := messages[|messages| - 1];
      match stringify(m)
      case None => DedupState(before.posted + [m], before.lastKey)
      case Some(key) =>
        if key == before.lastKey then before else DedupState(before.posted + [m], key)
  }

  /** The module-level last key and the messages posted to the parent window. */
  class Messenger<T> {
    var lastMsg: string
    var posted: seq<T>

    constructor ()
      ensures lastMsg == "" && posted == []
    {
      lastMsg := "";
      posted := [];
    }

    /** `postMessageDedup(data)`. */
    method PostMessageDedup(data: T, stringify: T -> Option<string>)
      modifies this
      ensures var step := Dedup(old(lastMsg), [data], stringify);
        posted == old(posted) + step.posted && lastMsg == step.lastKey
    {
      assert [data][..0] == [];
      var key := stringify(data);
      if key.Some? {
        if key.value == lastMsg {
          return;
        }
        lastMsg := key.value;
      }
      posted := posted + [data];
    }
  }

  /** A `JSON.stringify` that never throws, giving `key(m)`. */
  function Always<T>(key: T -> string): T -> Option<string> {
    (m: T) => Some(key(m))
  }

  /**
   * When `JSON.stringify` never throws: at most one message is posted per message sent, the
   * last key is the text of the last message posted, no two messages posted one after the
   * other have the same text, and the first one posted differs from the key before.
   */
  lemma {:induction false} DedupSpec<T>(lastKey: string, messages: seq<T>, key: T -> string)
    ensures |Dedup(lastKey, messages, Always(key)).posted| <= |messages|
    ensures var d := Dedup(lastKey, messages, Always(key));
      d.posted != [] ==> key(d.posted[|d.posted| - 1]) == d.lastKey
    ensures var d := Dedup(lastKey, messages, Always(key));
      forall i :: 0 <= i < |d.posted| - 1 ==> key(d.posted[i]) != key(d.posted[i + 1])
    ensures var d := Dedup(lastKey, messages, Always(key));
      d.posted != [] ==> key(d.posted[0]) != lastKey
    ensures Dedup(lastKey, messages, Always(key)).posted == [] ==> Dedup(lastKey, messages, Always(key)).lastKey == lastKey
  {
    if messages != [] {
      var init := messages[..|messages| - 1];
      DedupSpec(lastKey, init, key);
      var before := Dedup(lastKey, init, Always(key));
      var m := messages[|messages| - 1];
      assert Always(key)(m) == Some(key(m));
      if key(m) != before.lastKey {
        var posted := before.posted + [m];
        assert posted[..|before.posted|] == before.posted;
      }
    }
  }

  /**
   * The messages whose text differs from the text of the message sent just before them (from
   * `lastKey` for the first), in sending order.
   */
  function Kept<T>(lastKey: string, messages: seq<T>, key: T -> string): seq<T>
    decreases |messages|
  {
    if messages == [] then []
    else
      var rest := Kept(key(messages[0]), messages[1..], key);
      if key(messages[0]) == lastKey then rest else [messages[0]] + rest
  }

  /**
   * When `JSON.stringify` never throws, a message is posted exactly when its text differs from
   * the text of the message sent before it, and the last key is the text of the last message sent.
   */
  lemma {:induction false} DedupKept<T>(lastKey: string, messages: seq<T>, key: T -> string)
    ensures Dedup(lastKey, messages, Always(key)).posted == Kept(lastKey, messages, key)
    ensures messages != [] ==> Dedup(lastKey, messages, Always(key)).lastKey == key(messages[|messages| - 1])
    ensures messages == [] ==> Dedup(lastKey, messages, Always(key)).lastKey == lastKey
    decreases |messages|
  {
    if messages != [] {
      var init := messages[..|messages| - 1];
      var m := messages[|messages| - 1];
      assert messages == init + [m];
      DedupKept(lastKey, init, key);
      assert Always(key)(m) == Some(key(m));
      KeptSnoc(lastKey, init, m, key);
    }
  }

  /** Sending one more message: it is kept exactly when its text differs from the previous one. */
  lemma {:induction false} KeptSnoc<T>(lastKey: string, init: seq<T>, m: T, key: T -> string)
    ensures var prev := if init == [] then lastKey else key(init[|init| - 1]);
      Kept(lastKey, init + [m], key) == Kept(lastKey, init, key) + (if key(m) == prev then [] else [m])
    decreases |init|
  {
    if init == [] {
      assert [m][1..] == [];
    } else {
      assert (init + [m])[0] == init[0];
      assert (init + [m])[1..] == init[1..] + [m];
      KeptSnoc(key(init[0]), init[1..], m, key);
    }
  }

  /** Sending the same message twice in a row posts it at most once, whatever the key before. */
  lemma DedupRepeat<T>(lastKey: string, m: T, stringify: T -> Option<string>)
    requires stringify(m).Some?
    ensures |Dedup(lastKey, [m, m], stringify).posted| <= 1
    ensures Dedup(lastKey, [m, m], stringify).lastKey == stringify(m).value
  {
    assert [m, m][..1] == [m];
    assert [m][..0] == [];
    var none := Dedup(lastKey, [], stringify);
    assert none.posted == [] && none.lastKey == lastKey;
    var once := Dedup(lastKey, [m], stringify);
    assert once == if stringify(m).value == lastKey then none else DedupState([m], stringify(m).value);
    assert Dedup(lastKey, [m, m], stringify) == once;
  }

  // ---------------------------------------------------------------------------
  // Applied styles

  type Styles = map<string, string>

  /** `{ ...existing, ...styles }` for the element's record, or for an empty one. */
  function Merged(applied: map<string, Styles>, orchidsId: string, styles: Styles): Styles {
    (if orchidsId in applied then applied[orchidsId] else map[]) + styles
  }

  /**
   * A new value wins over the recorded one, a recorded property not in the change is kept,
   * and nothing else is recorded.
   */
  lemma MergedSpec(applied: map<string, Styles>, orchidsId: string, styles: Styles)
    ensures forall p :: p in styles ==> p in Merged(applied, orchidsId, styles) && Merged(applied, orchidsId, styles)[p] == styles[p]
    ensures orchidsId in applied ==>
      forall p :: p in applied[orchidsId] && p !in styles ==> Merged(applied, orchidsId, styles)[p] == applied[orchidsId][p]
    ensures forall p :: p in Merged(applied, orchidsId, styles) <==>
      p in styles || (orchidsId in applied && p in applied[orchidsId])
  {
  }

  class StyleRecorder {
    var applied: map<string, Styles>
    var hasStyleChanges: bool

    constructor ()
      ensures applied == map[] && !hasStyleChanges
    {
      applied := map[];
      hasStyleChanges := false;
    }

    /**
     * The recording part of `handleStyleChange`: nothing for an element without an id
     * (`orchidsId` empty) or with one that does not parse; otherwise the element's record takes
     * the new values and the change is flagged. Other elements' records stay as they are.
     */
    method HandleStyleChange(orchidsId: string, styles: Styles)
      modifies this
      ensures orchidsId == "" || ParsedOrchidsId(orchidsId).None? ==>
        applied == old(applied) && hasStyleChanges == old(hasStyleChanges)
      ensures orchidsId != "" && ParsedOrchidsId(orchidsId).Some? ==>
        applied == old(applied)[orchidsId := Merged(old(applied), orchidsId, styles)] && hasStyleChanges
    {
      if orchidsId == "" {
        return;
      }
      var parsed := ParseOrchidsId(orchidsId);
      if parsed.None? {
        return;
      }
      applied := applied[orchidsId := Merged(applied, orchidsId, styles)];
      hasStyleChanges := true;
    }
  }
}
