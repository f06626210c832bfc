/** The agent-side adapter (`src/freecad_mcp/server.py`): the connection to
    the addon that is opened once and then reused, the screenshot rules, and
    the reply each tool returns to the agent. What the addon answers, and
    whether a call raises, are parameters. */
module Adapter {

  import opened Values
  import opened Text
  import Dispatcher

  /** One item of a tool's reply: a text, or a PNG image as base64 text. */
  datatype Content = TextItem(text: string) | ImageItem(data: string)

  // ---------------------------------------------------------------------
  // The connection

  datatype Address = Address(host: string, port: nat)

  const Local: Address := Address("localhost", 9875)

  /** What a `ping` does: it answers a value, or it raises. */
  datatype Ping = Answered(reply: Value) | Raised(error: string)

  const ConnectError: string := "Failed to connect to FreeCAD. Make sure the FreeCAD addon is running."

  /** `get_freecad_connection` on the cached connection: the new cache and
      the connection handed out, or the text of what is raised. */
  function Connect(cached: Option<Address>, ping: Ping): (r: (Option<Address>, Result<Address>))
    ensures cached.Some? ==> r == (cached, Success(cached.value))
    ensures cached.None? ==> (r.1.Success? <==> ping.Answered? && Truthy(ping.reply))
    ensures cached.None? && r.1.Success? ==> r == (Some(Local), Success(Local))
    ensures cached.None? && ping.Answered? && !Truthy(ping.reply) ==> r == (None, Failure(ConnectError))
    ensures cached.None? && ping.Raised? ==> r == (Some(Local), Failure(ping.error))
  {
    if cached.Some? then (cached, Success(cached.value))
    else match ping
      case Answered(v) => if Truthy(v) then (Some(Local), Success(Local)) else (None, Failure(ConnectError))
      case Raised(e) => (Some(Local), Failure(e))
  }

  /** Once a connection is cached, every later call reuses it whatever a ping
      would say, and a ping that raises (rather than answering false) leaves
      the unchecked connection cached, so the next call does not ping again. */
  lemma ConnectionIsReused(ping: Ping, later: Ping)
    requires ping.Raised? || (ping.Answered? && Truthy(ping.reply))
    ensures var (cache, _) := Connect(None, ping);
      cache == Some(Local) && Connect(cache, later) == (Some(Local), Success(Local))
  {
  }

  // ---------------------------------------------------------------------
  // Screenshots

  const UnavailableNote: string :=
    "Note: Visual preview is unavailable in the current view type (such as TechDraw or Spreadsheet). "
    + "Switch to a 3D view to see visual feedback."

  /** `add_screenshot_if_available`: in text-only mode the reply is left as it
      is; otherwise exactly one item is appended, the image when there is
      one and the note that there is none when there is not. */
  function WithScreenshot(response: seq<Content>, screenshot: Option<string>, onlyText: bool): (r: seq<Content>)
    ensures onlyText ==> r == response
    ensures !onlyText ==> |r| == |response| + 1 && r[..|response|] == response
    ensures !onlyText ==> (r[|response|].ImageItem? <==> screenshot.Some?)
    ensures !onlyText && screenshot.Some? ==> r[|response|].data == screenshot.value
    ensures !onlyText && screenshot.None? ==> r[|response|] == TextItem(UnavailableNote)
  {
    if screenshot.Some? && !onlyText then response + [ImageItem(screenshot.value)]
    else if !onlyText then response + [TextItem(UnavailableNote)]
    else response
  }

  /** A reply being built, appended to in place. */
  class Response {
    var items: seq<Content>

    constructor (first: seq<Content>)
      ensures items == first
    {
      items := first;
    }

    method AddScreenshotIfAvailable(screenshot: Option<string>, onlyText: bool)
      modifies this
      ensures items == WithScreenshot(old(items), screenshot, onlyText)
    {
      if screenshot.Some? && !onlyText {
        items := items + [ImageItem(screenshot.value)];
      } else if !onlyText {
        items := items + [TextItem(UnavailableNote)];
      }
    }
  }

  const UnsupportedMarker: string := "Current view does not support screenshots"

  /** Python's `marker in container` for what the pre-check returned under
      `message`, or the TypeError it raises. */
  function MentionsMarker(message: Value): (r: Result<bool>)
    ensures r.Success? <==> message.Str? || message.List? || message.Dict?
    ensures r.Failure? ==> r.error == "argument of type '" + Dispatcher.TypeName(message) + "' is not iterable"
    ensures message == Str(UnsupportedMarker) ==> r == Success(true)
    ensures message.List? ==> (r == Success(true) <==> Str(UnsupportedMarker) in message.items)
  {
    assert Contains(UnsupportedMarker, UnsupportedMarker) by {
      assert OccursAt(UnsupportedMarker, UnsupportedMarker, 0);
    }
    match message
    case Str(s) => Success(Contains(s, UnsupportedMarker))
    case List(items) => Success(Str(UnsupportedMarker) in items)
    case Dict(entries) => Success(HasKey(entries, UnsupportedMarker))
    case _ => Failure("argument of type '" + Dispatcher.TypeName(message) + "' is not iterable")
  }

  /** The client's `get_active_screenshot`: `check` is what the pre-check
      (run through `execute_code`) returned or raised, `fetch` what the
      screenshot call returned or raised for each orientation it may ask
      for, and `viewName` the orientation asked for (`Isometric` unless the
      caller names one). Every failure becomes None. */
  function ClientScreenshot(check: Result<Value>, fetch: string -> Result<Option<string>>,
                            viewName: string := Dispatcher.DefaultViewName): (r: Option<string>)
    ensures r.Some? ==> fetch(viewName) == Success(r)
    ensures check.Failure? || (check.Success? && !check.value.Dict?) ==> r.None?
    ensures (check.Success? && check.value.Dict?
             && !Truthy(GetOr(check.value.entries, "success", Bool(false)))) ==> r.None?
    ensures (check.Success? && check.value.Dict?
             && Lookup(check.value.entries, "message") == Some(Str(UnsupportedMarker))) ==> r.None?
    ensures check.Success? && check.value.Dict?
            && Truthy(GetOr(check.value.entries, "success", Bool(false)))
            && MentionsMarker(GetOr(check.value.entries, "message", Str(""))) == Success(false)
            ==> r == (if fetch(viewName).Success? then fetch(viewName).value else None)
  {
    assert Contains(UnsupportedMarker, UnsupportedMarker) by {
      assert OccursAt(UnsupportedMarker, UnsupportedMarker, 0);
    }
    if check.Failure? || !check.value.Dict? then None
    else
      var es := check.value.entries;
      if !Truthy(GetOr(es, "success", Bool(false))) then None
      else match MentionsMarker(GetOr(es, "message", Str("")))
        case Failure(_) => None
        case Success(true) => None
        case Success(false) => if fetch(viewName).Success? then fetch(viewName).value else None
  }

  /** What `execute_code` puts before the captured output. */
  const OutputHead: string := "Python code execution scheduled. \nOutput: "

  lemma ContainsInSuffix(prefix: string, s: string, sub: string)
    requires Contains(s, sub)
    ensures Contains(prefix + s, sub)
  {
    var i :| 0 <= i <= |s| - |sub| && OccursAt(s, sub, i);
    assert (prefix + s)[|prefix| + i..|prefix| + i + |sub|] == s[i..i + |sub|];
    assert OccursAt(prefix + s, sub, |prefix| + i);
  }

  /** Against the addon's reply to the pre-check: when the pre-check code
      fails, or prints that the view cannot take screenshots, no screenshot
      is requested and the client gets None. */
  lemma UnsupportedViewGivesNoScreenshot(res: Value, output: string, fetch: string -> Result<Option<string>>,
                                         viewName: string)
    requires res != Bool(true) || Contains(output, UnsupportedMarker)
    ensures ClientScreenshot(Success(Dispatcher.Envelope(res, "message", Str(OutputHead + output))), fetch, viewName).None?
  {
    var env := Dispatcher.Envelope(res, "message", Str(OutputHead + output));
    if res == Bool(true) {
      ContainsInSuffix(OutputHead, output, UnsupportedMarker);
      assert env.entries[1] == ("message", Str(OutputHead + output));
      assert GetOr(env.entries, "message", Str("")) == Str(OutputHead + output);
    }
  }

  const ViewUnavailable: string :=
    "Cannot get screenshot in the current view type (such as TechDraw or Spreadsheet)"

  /** `get_view`: one item, the image when there is one, otherwise a fixed
      text (the text-only setting is not consulted). */
  function ViewReply(screenshot: Option<string>): (r: seq<Content>)
    ensures |r| == 1
    ensures r[0].ImageItem? <==> screenshot.Some?
    ensures screenshot.Some? ==> r[0].data == screenshot.value
    ensures screenshot.None? ==> r[0] == TextItem(ViewUnavailable)
  {
    match screenshot
    case Some(s) => [ImageItem(s)]
    case None => [TextItem(ViewUnavailable)]
  }

  const NodesMarker: string := "Nodes workbench interface is not available"
  const NodesFallback: string := "Failed to get Nodes workbench screenshot or it's not available."

  /** `get_nodes_workbench_screenshot`: an empty or missing answer gives the
      fallback text, an answer that says the interface is missing is passed
      on as text, anything else is the image. */
  function NodesScreenshotReply(data: Option<string>): (r: seq<Content>)
    ensures |r| == 1
    ensures data.None? || data == Some("") ==> r == [TextItem(NodesFallback)]
    ensures r[0].ImageItem? <==> data.Some? && data.value != "" && !Contains(data.value, NodesMarker)
    ensures r[0].ImageItem? ==> r[0].data == data.value
    ensures data.Some? && Contains(data.value, NodesMarker) ==> r == [TextItem(data.value)]
  {
    if data.None? || data.value == "" then [TextItem(NodesFallback)]
    else if Contains(data.value, NodesMarker) then [TextItem(data.value)]
    else [ImageItem(data.value)]
  }

  /** The nodes screenshot appended after a node is created: as above, but
      nothing when there is no answer, and no image in text-only mode. */
  function NodesShotItems(data: Option<string>, onlyText: bool): (r: seq<Content>)
    ensures |r| <= 1
    ensures data.None? || data == Some("") ==> r == []
    ensures data.Some? && Contains(data.value, NodesMarker) ==> r == [TextItem(data.value)]
    ensures forall i :: 0 <= i < |r| && r[i].ImageItem? ==> !onlyText && data == Some(r[i].data)
    ensures (!onlyText && data.Some? && data.value != "" && !Contains(data.value, NodesMarker))
            ==> r == [ImageItem(data.value)]
  {
    if data.None? || data.value == "" then []
    else if Contains(data.value, NodesMarker) then [TextItem(data.value)]
    else if !onlyText then [ImageItem(data.value)]
    else []
  }

  // ---------------------------------------------------------------------
  // Tool replies

  /** The tools whose reply follows the `success`/`error` envelope. */
  datatype Tool =
    | CreateDocumentTool
    | CreateObjectTool
    | EditObjectTool
    | DeleteObjectTool
    | ExecuteCodeTool
    | InsertPartTool

  /** The envelope entry a successful reply is read from. */
  function SuccessKey(t: Tool): (r: string) {
    match t
    case CreateDocumentTool => "document_name"
    case ExecuteCodeTool => "message"
    case InsertPartTool => "message"
    case _ => "object_name"
  }

  function SuccessText(t: Tool, payload: Value): (r: string) {
    match t
    case CreateDocumentTool => "Document '" + Show(payload) + "' created successfully"
    case CreateObjectTool => "Object '" + Show(payload) + "' created successfully"
    case EditObjectTool => "Object '" + Show(payload) + "' edited successfully"
    case DeleteObjectTool => "Object '" + Show(payload) + "' deleted successfully"
    case ExecuteCodeTool => "Code executed successfully: " + Show(payload)
    case InsertPartTool => "Part inserted from library: " + Show(payload)
  }

  function FailurePrefix(t: Tool): (r: string) {
    match t
    case CreateDocumentTool => "Failed to create document: "
    case CreateObjectTool => "Failed to create object: "
    case EditObjectTool => "Failed to edit object: "
    case DeleteObjectTool => "Failed to delete object: "
    case ExecuteCodeTool => "Failed to execute code: "
    case InsertPartTool => "Failed to insert part from library: "
  }

  /** Every tool but `create_document` adds the screenshot rule. */
  predicate TakesScreenshot(t: Tool) {
    t != CreateDocumentTool
  }

  function Finish(t: Tool, text: string, screenshot: Option<string>, onlyText: bool): (r: seq<Content>) {
    if TakesScreenshot(t) then WithScreenshot([TextItem(text)], screenshot, onlyText) else [TextItem(text)]
  }

  /** A tool's reply to what the addon returned (`call`; a Failure is an
      exception). A `KeyError` on the reply is caught like any other
      exception: one failure text and no screenshot. */
  function ToolReply(t: Tool, call: Result<Value>, screenshot: Option<string>, onlyText: bool): (r: seq<Content>)
    ensures 1 <= |r| <= 2 && r[0].TextItem?
    ensures call.Failure? ==> r == [TextItem(FailurePrefix(t) + call.error)]
    ensures |r| == 2 ==> TakesScreenshot(t) && !onlyText && (r[1].ImageItem? <==> screenshot.Some?)
    ensures call.Success? && call.value.Dict? && Lookup(call.value.entries, "success") == Some(Bool(true))
            && HasKey(call.value.entries, SuccessKey(t))
            ==> r == Finish(t, SuccessText(t, Lookup(call.value.entries, SuccessKey(t)).value), screenshot, onlyText)
    ensures call.Success? && call.value.Dict? && Lookup(call.value.entries, "success") == Some(Bool(false))
            && HasKey(call.value.entries, "error")
            ==> r == Finish(t, FailurePrefix(t) + Show(Lookup(call.value.entries, "error").value), screenshot, onlyText)
    ensures call.Success? && call.value.Dict? && !HasKey(call.value.entries, "success")
            ==> r == [TextItem(FailurePrefix(t) + Subscript(call.value, "success").error)]
  {
    match call
    case Failure(e) => [TextItem(FailurePrefix(t) + e)]
    case Success(res) =>
      match Subscript(res, "success")
      case Failure(e) => [TextItem(FailurePrefix(t) + e)]
      case Success(ok) =>
        if Truthy(ok) then
          match Subscript(res, SuccessKey(t))
          case Failure(e) => [TextItem(FailurePrefix(t) + e)]
          case Success(p) => Finish(t, SuccessText(t, p), screenshot, onlyText)
        else
          match Subscript(res, "error")
          case Failure(e) => [TextItem(FailurePrefix(t) + e)]
          case Success(err) => Finish(t, FailurePrefix(t) + Show(err), screenshot, onlyText)
  }

  /** Against the addon's envelope: the agent is told of success exactly
      when the GUI-side result was True, and is otherwise shown that result
      as the error. */
  lemma ReplyFollowsEnvelope(t: Tool, res: Value, payload: Value, screenshot: Option<string>, onlyText: bool)
    ensures var r := ToolReply(t, Success(Dispatcher.Envelope(res, SuccessKey(t), payload)), screenshot, onlyText);
      r == Finish(t, if res == Bool(true) then SuccessText(t, payload) else FailurePrefix(t) + Show(res),
                  screenshot, onlyText)
  {
    var key := SuccessKey(t);
    var env := Dispatcher.Envelope(res, key, payload);
    assert env.entries[0] == ("success", Bool(res == Bool(true)));
    if res == Bool(true) {
      assert env.entries[1] == (key, payload);
      assert Lookup(env.entries, key) == Some(payload);
    } else {
      assert env.entries[1] == ("error", res);
      assert Lookup(env.entries, "error") == Some(res);
    }
  }

  /** `create_object`'s `obj_data`: `Properties` defaults to `{}` and the
      analysis name is passed on as it is. */
  function ObjData(name: string, typeId: string, analysis: Option<string>,
                   properties: Option<seq<(string, Value)>>): (r: Value)
    ensures r.Dict? && |r.entries| == 4
    ensures Lookup(r.entries, "Properties") == Some(Dict(properties.GetOr([])))
  {
    var a := if analysis.Some? then Str(analysis.value) else Null;
    var es := [("Name", Str(name)), ("Type", Str(typeId)), ("Properties", Dict(properties.GetOr([]))),
               ("Analysis", a)];
    assert es[2..][0] == es[2];
    Dict(es)
  }

  /** What the agent sends is the request the addon reads back. */
  lemma ObjDataRoundTrip(name: string, typeId: string, analysis: Option<string>,
                         properties: Option<seq<(string, Value)>>)
    ensures Dispatcher.ParseObjectRequest(ObjData(name, typeId, analysis, properties))
            == Success(Dispatcher.ObjectRequest(name, typeId,
                                                if analysis.Some? then Str(analysis.value) else Null,
                                                properties.GetOr([])))
  {
    var d := ObjData(name, typeId, analysis, properties);
    var es := d.entries;
    assert es[0] == ("Name", Str(name));
    assert Lookup(es, "Type") == Some(Str(typeId)) by { assert es[1..][0] == es[1]; }
    assert Lookup(es, "Analysis") == Some(es[3].1) by {
      assert es[1..][1..][1..][0] == es[3];
    }
  }

  // ---------------------------------------------------------------------
  // Node creation: the title literal and the status line

  /** How Python reads a single-quoted literal standing alone in a script:
      the text it denotes, or None when it is not one well-formed literal
      (no closing quote, a line break inside, or text after the closing
      quote). Of the escapes only the two this model produces, a doubled
      backslash and a backslash before a quote, are decoded; any other
      escape counts as unreadable. */
  function ReadQuoted(lit: string): (r: Option<string>) {
    if lit != [] && lit[0] == '\'' then ReadBody(lit[1..]) else None
  }

  function ReadBody(b: string): (r: Option<string>)
    decreases |b|
  {
    if b == [] then None
    else if b[0] == '\'' then (if |b| == 1 then Some("") else None)
    else if b[0] == '\n' || b[0] == '\r' then None
    else if b[0] == '\\' then
      if |b| >= 2 && (b[1] == '\\' || b[1] == '\'') then Prepend(b[1], ReadBody(b[2..])) else None
    else Prepend(b[0], ReadBody(b[1..]))
  }

  function Prepend(c: char, r: Option<string>): (res: Option<string>) {
    match r
    case None => None
    case Some(s) => Some([c] + s)
  }

  /** The title as line 530 writes it into the script: pairs of backslashes
      are doubled and a quote becomes two backslashes and a quote. */
  function EscapeTitleAsWritten(title: Option<string>): (r: string)
    ensures title.None? ==> r == "None"
    ensures title.Some? ==> |r| >= 2 && r[0] == '\'' && r[|r| - 1] == '\''
  {
    match title
    case None => "None"
    case Some(t) => "'" + Replace(Replace(t, "\\\\", "\\\\\\\\"), "'", "\\\\'") + "'"
  }

  /** A title with a quote in it closes the literal early: the script the
      addon runs does not parse, while the corrected literal reads back. */
  lemma TitleQuoteBreaksLiteral()
    ensures ReadQuoted(EscapeTitleAsWritten(Some("it's"))) == None
    ensures ReadQuoted(EscapeTitle(Some("it's"))) == Some("it's")
  {
    EscapedItS();
    var lit := "'it\\\\'s'";
    assert lit[1..] == "it\\\\'s'";
    EarlyQuoteUnreadable();
  }

  /** Line 530 on the title `it's`. */
  lemma EscapedItS()
    ensures EscapeTitleAsWritten(Some("it's")) == "'it\\\\'s'"
  {
    NoBackslashPairInItS();
    QuoteInItS();
  }

  lemma NoBackslashPairInItS()
    ensures Replace("it's", "\\\\", "\\\\\\\\") == "it's"
  {
    NoFirstCharNoOccurrence("it's", "\\\\");
    SplitWithoutSeparator("it's", "\\\\");
  }

  lemma QuoteInItS()
    ensures Replace("it's", "'", "\\\\'") == "it\\\\'s"
  {
    assert "it's" == "it" + ['\''] + "s";
    SplitAtFirst("it", '\'', "s");
    NoFirstCharNoOccurrence("s", "'");
    SplitWithoutSeparator("s", "'");
    assert Split("it's", "'") == ["it", "s"];
  }

  lemma EarlyQuoteUnreadable()
    ensures ReadBody("it\\\\'s'") == None
  {
    var b := "it\\\\'s'";
    assert ReadBody(b[4..]) == None by { assert b[4..] == "'s'"; }
    assert ReadBody(b[2..]) == None by { assert b[2..][2..] == b[4..]; }
    assert ReadBody(b[1..]) == None by { assert b[1..][1..] == b[2..]; }
  }

  /** The evidently intended escape: each backslash doubled, each quote
      preceded by a backslash, character by character. */
  function EscapeChars(t: string): (r: string)
    decreases |t|
  {
    if t == [] then []
    else (if t[0] == '\\' then "\\\\" else if t[0] == '\'' then "\\'" else [t[0]]) + EscapeChars(t[1..])
  }

  lemma ReplaceOne(x: char, c: char, replacement: string)
    ensures Replace([x], [c], replacement) == if x == c then replacement else [x]
  {
    ReplaceCharStep([x], c, replacement);
    assert [x][1..] == [];
    assert Split([], [c]) == [[]];
  }

  /** The corrected `replace` chain is the character-wise escape. */
  lemma {:induction false} EscapeCharsIsReplace(t: string)
    ensures Replace(Replace(t, "\\", "\\\\"), "'", "\\'") == EscapeChars(t)
    decreases |t|
  {
    if t == [] {
      assert Split([], "\\") == [[]];
      assert Split([], "'") == [[]];
    } else {
      var head := if t[0] == '\\' then "\\\\" else [t[0]];
      ReplaceCharStep(t, '\\', "\\\\");
      assert Replace(t, "\\", "\\\\") == head + Replace(t[1..], "\\", "\\\\");
      ReplaceConcat(head, Replace(t[1..], "\\", "\\\\"), '\'', "\\'");
      EscapeCharsIsReplace(t[1..]);
      if t[0] == '\\' {
        assert head == ['\\'] + ['\\'];
        ReplaceConcat(['\\'], ['\\'], '\'', "\\'");
        ReplaceOne('\\', '\'', "\\'");
      } else {
        ReplaceOne(t[0], '\'', "\\'");
      }
    }
  }

  /** The character-wise escape, closed by a quote, reads back as the text. */
  lemma {:induction false} ReadEscaped(t: string)
    requires '\n' !in t && '\r' !in t
    ensures ReadBody(EscapeChars(t) + "'") == Some(t)
    decreases |t|
  {
    if t != [] {
      var head := if t[0] == '\\' then "\\\\" else if t[0] == '\'' then "\\'" else [t[0]];
      var tail := EscapeChars(t[1..]) + "'";
      assert t[0] in t;
      assert '\n' !in t[1..] && '\r' !in t[1..] by {
        forall ch | ch in t[1..] ensures ch in t { }
      }
      ReadEscaped(t[1..]);
      var b := EscapeChars(t) + "'";
      assert b == head + tail;
      if |head| == 2 {
        assert b[2..] == tail;
      } else {
        assert b[1..] == tail;
      }
      assert [t[0]] + t[1..] == t;
    }
  }

  /** The corrected title literal: `None` for no title, otherwise a literal
      Python reads back as the title itself (for a title on one line). */
  function EscapeTitle(title: Option<string>): (r: string)
    ensures title.None? ==> r == "None"
    ensures title.Some? && '\n' !in title.value && '\r' !in title.value ==> ReadQuoted(r) == Some(title.value)
  {
    match title
    case None => "None"
    case Some(t) =>
      var escaped := Replace(Replace(t, "\\", "\\\\"), "'", "\\'");
      EscapeCharsIsReplace(t);
      if '\n' !in t && '\r' !in t then
        ReadEscaped(t);
        assert ("'" + escaped + "'")[1..] == escaped + "'";
        "'" + escaped + "'"
      else "'" + escaped + "'"
  }

  /** The status as line 632 finds it: the last piece of a split on the
      three characters backslash, backslash, n. */
  function StatusLineAsWritten(raw: string): (r: string)
    ensures |r| <= |raw| && raw[|raw| - |r|..] == r
    ensures !Contains(raw, "\\\\n") ==> r == raw
  {
    var parts := Split(raw, "\\\\n");
    JoinSplit(raw, "\\\\n");
    if !Contains(raw, "\\\\n") then
      SplitWithoutSeparator(raw, "\\\\n");
      Last(parts)
    else if |parts| >= 2 then
      JoinLast(parts, "\\\\n");
      Last(parts)
    else Last(parts)
  }

  /** Output without backslashes, which is what the node script prints, is
      not split at all: the "last line" is the whole log. */
  lemma StatusLineAsWrittenIsWholeOutput(raw: string)
    requires '\\' !in raw
    ensures StatusLineAsWritten(raw) == raw
  {
    NoFirstCharNoOccurrence(raw, "\\\\n");
    SplitWithoutSeparator(raw, "\\\\n");
  }

  /** The evidently intended status: the last line of the output. It has no
      line break and ends the output, right after a line break or at the
      start. */
  function StatusLine(raw: string): (r: string)
    ensures '\n' !in r
    ensures |r| <= |raw| && raw[|raw| - |r|..] == r
    ensures |r| < |raw| ==> raw[|raw| - |r| - 1] == '\n'
  {
    LastPieceIsSuffix(raw, '\n');
    Last(Split(raw, "\n"))
  }

  lemma StatusLineCounterexample()
    ensures StatusLineAsWritten("a\nb") == "a\nb"
    ensures StatusLine("a\nb") == "b"
  {
    StatusLineAsWrittenIsWholeOutput("a\nb");
    assert "a\nb" == "a" + ['\n'] + "b";
    SplitAtFirst("a", '\n', "b");
    NoFirstCharNoOccurrence("b", "\n");
    SplitWithoutSeparator("b", "\n");
    assert Split("a\nb", "\n") == ["a", "b"];
  }

  const ScriptFailureHead: string := "Failed to execute node creation script: "

  /** Line 649 as written: the doubled braces make the text literal, so the
      exception's text is never shown. */
  function NodeScriptFailureAsWritten(error: string): (r: string)
    ensures r == ScriptFailureHead + "{str(e)}"
  {
    ScriptFailureHead + "{str(e)}"
  }

  /** The evidently intended text carries the exception's text. */
  function NodeScriptFailure(error: string): (r: string)
    ensures |r| == |ScriptFailureHead| + |error|
    ensures r[..|ScriptFailureHead|] == ScriptFailureHead && r[|ScriptFailureHead|..] == error
  {
    ScriptFailureHead + error
  }

  /** Two different exceptions are reported alike as written, and apart
      once corrected. */
  lemma ScriptFailureLosesError(e1: string, e2: string)
    requires e1 != e2
    ensures NodeScriptFailureAsWritten(e1) == NodeScriptFailureAsWritten(e2)
    ensures NodeScriptFailure(e1) != NodeScriptFailure(e2)
  {
    var r1, r2 := NodeScriptFailure(e1), NodeScriptFailure(e2);
    assert r1[|ScriptFailureHead|..] != r2[|ScriptFailureHead|..];
  }

  const SuccessMarker: string := "Successfully created node"
  const IssuesHead: string := "Node creation issues detected. Status: '"
  const FinishedHead: string := "Node creation attempt finished. Final line: '"

  predicate ReportsIssue(raw: string) {
    Contains(raw, "Error") || Contains(raw, "Warning") || Contains(raw, "Critical")
  }

  /** The whole output is searched: an issue word anywhere in a log is
      reported however much text surrounds it. */
  lemma IssueSeenAnywhere(before: string, raw: string, after: string)
    requires ReportsIssue(raw)
    ensures ReportsIssue(before + raw + after)
  {
    var w := if Contains(raw, "Error") then "Error" else if Contains(raw, "Warning") then "Warning" else "Critical";
    var i :| 0 <= i <= |raw| - |w| && OccursAt(raw, w, i);
    var t := before + raw + after;
    assert t[|before| + i..|before| + i + |w|] == raw[i..i + |w|];
    assert OccursAt(t, w, |before| + i);
  }

  /** The status and then the whole log, separated by a backslash and an
      `n` (the two characters, as the reply text has them). */
  function WithLog(head: string, status: string, raw: string): (r: string)
    ensures |r| >= |head| + |raw| && r[..|head|] == head && r[|r| - |raw|..] == raw
  {
    head + status + "'. Full Log:\\n" + raw
  }

  /** `execution_result.get("message", "").strip()`, or the text of what it
      raises. */
  function MessageText(v: Value): (r: Result<string>)
    ensures v.Dict? && !HasKey(v.entries, "message") ==> r == Success("")
  {
    if !v.Dict? then Failure("'" + Dispatcher.TypeName(v) + "' object has no attribute 'get'")
    else match GetOr(v.entries, "message", Str(""))
      case Str(s) => Success(Strip(s))
      case m => Failure("'" + Dispatcher.TypeName(m) + "' object has no attribute 'strip'")
  }

  /** The status item: just the last line when the output reports a created
      node, otherwise the last line and the whole log, flagged as issues
      when the output mentions an error, a warning or a critical error. */
  function NodeStatusReply(raw: string): (r: Content)
    ensures r.TextItem?
    ensures Contains(raw, SuccessMarker) ==> r == TextItem(StatusLine(raw))
    ensures !Contains(raw, SuccessMarker) && ReportsIssue(raw)
            ==> r == TextItem(WithLog(IssuesHead, StatusLine(raw), raw))
    ensures !Contains(raw, SuccessMarker) && !ReportsIssue(raw)
            ==> r == TextItem(WithLog(FinishedHead, StatusLine(raw), raw))
  {
    var status := StatusLine(raw);
    if Contains(raw, SuccessMarker) then TextItem(status)
    else if ReportsIssue(raw) then TextItem(WithLog(IssuesHead, status, raw))
    else TextItem(WithLog(FinishedHead, status, raw))
  }

  /** `mcp_freecad_nodes_create_node` after the script has run: the status
      item (or the failure text), then the nodes screenshot. */
  function NodeCreateReply(exec: Result<Value>, shot: Option<string>, onlyText: bool): (r: seq<Content>)
    ensures 1 <= |r| <= 2 && r[0].TextItem? && r[1..] == NodesShotItems(shot, onlyText)
    ensures exec.Failure? ==> r[0].text == NodeScriptFailure(exec.error)
    ensures exec.Success? && MessageText(exec.value).Failure?
            ==> r[0].text == NodeScriptFailure(MessageText(exec.value).error)
    ensures exec.Success? && MessageText(exec.value).Success?
            ==> r[0] == NodeStatusReply(MessageText(exec.value).value)
  {
    var status :=
      match exec
      case Failure(e) => TextItem(NodeScriptFailure(e))
      case Success(v) =>
        match MessageText(v)
        case Failure(e) => TextItem(NodeScriptFailure(e))
        case Success(raw) => NodeStatusReply(raw);
    [status] + NodesShotItems(shot, onlyText)
  }

  /** A script that fails in the addon comes back with its error under
      `error`, not `message`: the agent is told only that the attempt
      finished, with an empty last line and an empty log. */
  lemma FailedScriptLooksFinished(res: Value, payload: Value, shot: Option<string>, onlyText: bool)
    requires res != Bool(true)
    ensures NodeCreateReply(Success(Dispatcher.Envelope(res, "message", payload)), shot, onlyText)[0]
            == TextItem(FinishedHead + "'. Full Log:\\n")
  {
    var env := Dispatcher.Envelope(res, "message", payload);
    assert env.entries[0].0 == "success" && env.entries[1].0 == "error";
    assert MessageText(env) == Success("");
    EmptyOutputReply();
  }

  lemma EmptyOutputReply()
    ensures NodeStatusReply("") == TextItem(FinishedHead + "'. Full Log:\\n")
  {
    assert StatusLine("") == "";
    assert !Contains("", SuccessMarker);
    assert !ReportsIssue("");
  }

  // ---------------------------------------------------------------------
  // The session

  /** The agent-side process: the cached connection and the text-only
      setting. Each tool first gets the connection; a failure there is not
      caught by the tool and reaches the agent as an error. */
  class Session {
    var connection: Option<Address>
    const onlyTextFeedback: bool

    constructor (onlyText: bool)
      ensures connection == None && onlyTextFeedback == onlyText
    {
      connection := None;
      onlyTextFeedback := onlyText;
    }

    /** `get_freecad_connection`. */
    method GetConnection(ping: Ping) returns (r: Result<Address>)
      modifies this
      ensures (connection, r) == Connect(old(connection), ping)
    {
      if connection.Some? {
        return Success(connection.value);
      }
      connection := Some(Local);
      match ping {
        case Answered(v) =>
          if !Truthy(v) {
            connection := None;
            return Failure(ConnectError);
          }
          r := Success(Local);
        case Raised(e) =>
          r := Failure(e);
      }
    }

    /** A tool that follows the envelope: `call` is the addon's answer,
        `check` and `fetch` the two calls behind the screenshot, which
        names no orientation and so asks for `Isometric`. */
    method RunTool(t: Tool, ping: Ping, call: Result<Value>, check: Result<Value>,
                   fetch: string -> Result<Option<string>>) returns (r: Result<seq<Content>>)
      modifies this
      ensures connection == Connect(old(connection), ping).0
      ensures Connect(old(connection), ping).1.Failure? ==> r == Failure(Connect(old(connection), ping).1.error)
      ensures Connect(old(connection), ping).1.Success?
              ==> r == Success(ToolReply(t, call, ClientScreenshot(check, fetch, "Isometric"), onlyTextFeedback))
    {
      var c := GetConnection(ping);
      if c.Failure? {
        return Failure(c.error);
      }
      var screenshot := ClientScreenshot(check, fetch);
      r := Success(ToolReply(t, call, screenshot, onlyTextFeedback));
    }

    /** `get_view`. */
    method GetView(ping: Ping, viewName: string, check: Result<Value>, fetch: string -> Result<Option<string>>)
      returns (r: Result<seq<Content>>)
      modifies this
      ensures connection == Connect(old(connection), ping).0
      ensures Connect(old(connection), ping).1.Failure? ==> r == Failure(Connect(old(connection), ping).1.error)
      ensures Connect(old(connection), ping).1.Success? ==> r == Success(ViewReply(ClientScreenshot(check, fetch, viewName)))
    {
      var c := GetConnection(ping);
      if c.Failure? {
        return Failure(c.error);
      }
      r := Success(ViewReply(ClientScreenshot(check, fetch, viewName)));
    }

    /** `get_nodes_workbench_screenshot`; `data` is what the client got (None
        when the call raised). */
    method NodesScreenshot(ping: Ping, data: Option<string>) returns (r: Result<seq<Content>>)
      modifies this
      ensures connection == Connect(old(connection), ping).0
      ensures Connect(old(connection), ping).1.Failure? ==> r == Failure(Connect(old(connection), ping).1.error)
      ensures Connect(old(connection), ping).1.Success? ==> r == Success(NodesScreenshotReply(data))
    {
      var c := GetConnection(ping);
      if c.Failure? {
        return Failure(c.error);
      }
      r := Success(NodesScreenshotReply(data));
    }

    /** `mcp_freecad_nodes_create_node`, from the script's outcome on. */
    method CreateNode(ping: Ping, exec: Result<Value>, shot: Option<string>) returns (r: Result<seq<Content>>)
      modifies this
      ensures connection == Connect(old(connection), ping).0
      ensures Connect(old(connection), ping).1.Failure? ==> r == Failure(Connect(old(connection), ping).1.error)
      ensures Connect(old(connection), ping).1.Success? ==> r == Success(NodeCreateReply(exec, shot, onlyTextFeedback))
    {
      var c := GetConnection(ping);
      if c.Failure? {
        return Failure(c.error);
      }
      r := Success(NodeCreateReply(exec, shot, onlyTextFeedback));
    }
  }
}
