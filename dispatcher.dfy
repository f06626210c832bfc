/** The command dispatcher of the CAD addon (`FreeCADRPC`): each RPC method
    builds a closure, sends it through the GUI task bridge, and maps the
    result it gets back into a `{"success": ...}` envelope.

    The closures are modelled as total functions on the GUI-owned state
    `Gui`. What FreeCAD itself decides (the name a new document or object
    gets, whether a type can be instantiated, the texts of its exceptions,
    mesh generation, the parts library, `exec`) comes from a `Host` value
    passed in. */
module Dispatcher {

  import opened Values
  import opened Text
  import opened Coercion
  import Bridge

  /** A document: its objects by name. */
  datatype Doc = Doc(objects: map<string, Obj>)

  /** `FreeCADGui.ActiveDocument.ActiveView`: no active document, no active
      view, or a view that may or may not export images, with its current
      orientation and the paths of the images it saved. */
  datatype View =
    | NoActiveDocument
    | NoActiveView
    | View3D(savesImages: bool, orientation: string, saved: seq<string>)

  /** Everything only the GUI thread touches: the open documents and the
      active view. */
  datatype Gui = Gui(docs: map<string, Doc>, view: View)

  /** Which FreeCAD constructor creates an object. */
  datatype Maker =
    | AddObject(typeId: string)  // doc.addObject(type, name)
    | FemMake(maker: string)     // ObjectsFem.<maker>(doc, name)
    | MeshGmsh                   // ObjectsFem.makeMeshGmsh(doc, name)

  /** What FreeCAD decides and the model does not. */
  datatype Host = Host(
    // The name `newDocument` gives a document asked for under a name, given the names in use.
    newDocName: (string, set<string>) -> string,
    // The object a constructor creates under a requested name, or the text of what it raises.
    create: (Maker, string, set<string>) -> Result<Obj>,
    // The `make...` functions `ObjectsFem` has.
    femMethods: set<string>,
    // The text of the AttributeError `getattr(doc, analysis)` raises for an unknown analysis.
    attrError: Value -> string,
    // The text of a fault other than an unresolved object name (such as what
    // `getObject` raises for a name that is not a string).
    faultText: Fault -> string,
    // The text `create_mesh` raises for a mesh object, if it raises.
    meshError: Obj -> Option<string>,
    // The text `removeObject` raises for a name the document does not have.
    removeError: string -> string,
    // Inserting a library part into the GUI state: the state afterwards and
    // the text of what `insert_part_from_library` raises, if it raises.
    insertPart: (string, Gui) -> (Gui, Option<string>),
    // Running a code string on the GUI state: the state afterwards (what ran
    // before a raise stays done), the text of what it raises, if anything,
    // and what it printed.
    exec: (string, Gui) -> (Gui, Option<string>, string),
    // The base64 text of the image the active view exports in an orientation.
    render: string -> string)

  /** The create-object request (`Object` with its parsed fields). */
  datatype ObjectRequest = ObjectRequest(name: string, typeId: string, analysis: Value,
                                         properties: seq<(string, Value)>)

  /** The document name `create_document` uses when none is given. */
  const DefaultDocumentName: string := "New_Document"

  /** The nine orientations `_save_active_screenshot` accepts. */
  const ViewNames: seq<string> :=
    ["Isometric", "Front", "Top", "Right", "Back", "Left", "Bottom", "Dimetric", "Trimetric"]

  /** The orientation a screenshot uses when the caller names none. */
  const DefaultViewName: string := "Isometric"

  predicate StartsWith(s: string, prefix: string) {
    |prefix| <= |s| && s[..|prefix|] == prefix
  }

  /** `doc` with `o` stored under its own name. */
  function Put(doc: Doc, o: Obj): (r: Doc)
    ensures o.name in r.objects && r.objects[o.name] == o
    ensures forall n :: n != o.name ==> MapAgree(r.objects, doc.objects, n)
  {
    Doc(doc.objects[o.name := o])
  }

  /** `analysis.addObject(member)`: the member's name appended to the
      analysis group. */
  function Attach(doc: Doc, analysis: string, member: string): (r: Doc)
    requires analysis in doc.objects
    ensures analysis in r.objects && r.objects[analysis].group == doc.objects[analysis].group + [member]
    ensures forall n :: n != analysis ==> MapAgree(r.objects, doc.objects, n)
  {
    var a := doc.objects[analysis];
    Doc(doc.objects[analysis := a.(group := a.group + [member])])
  }

  /** `getattr(doc, analysis)`: the analysis object named, or the text of
      the AttributeError. */
  function AnalysisOf(host: Host, doc: Doc, analysis: Value): (r: Result<string>)
    ensures r.Success? <==> analysis.Str? && analysis.s in doc.objects
    ensures r.Success? ==> r.value == analysis.s
  {
    if analysis.Str? && analysis.s in doc.objects then Success(analysis.s)
    else Failure(host.attrError(analysis))
  }

  /** `str(e)` for a property fault raised outside `set_object_property`. */
  function FaultMessage(host: Host, f: Fault): (r: string) {
    if f.RefNotFound? then "Referenced object '" + f.missing + "' not found." else host.faultText(f)
  }

  // ---------------------------------------------------------------------
  // create_document

  /** `_create_document_gui`: a new, empty document under the name FreeCAD
      gives it; always True. */
  function CreateDocumentGui(host: Host, g: Gui, name: string): (r: (Gui, Value))
    ensures r.1 == Bool(true) && r.0.view == g.view
    ensures var actual := host.newDocName(name, g.docs.Keys);
      actual in r.0.docs && r.0.docs[actual] == Doc(map[])
      && forall d :: d != actual ==> MapAgree(r.0.docs, g.docs, d)
  {
    (g.(docs := g.docs[host.newDocName(name, g.docs.Keys) := Doc(map[])]), Bool(true))
  }

  // ---------------------------------------------------------------------
  // create_object

  /** The generic path: `doc.addObject(type, name)` followed by the
      property coercion, run with the document's object names (the new
      object's included). */
  function CreateGeneric(host: Host, doc: Doc, req: ObjectRequest): (r: (Doc, Value))
    ensures r.1 == Bool(true) || r.1.Str?
  {
    match host.create(AddObject(req.typeId), req.name, doc.objects.Keys)
    case Failure(e) => (doc, Str(e))
    case Success(o) =>
      var d1 := Put(doc, o);
      (Put(d1, ApplyProperties(d1.objects.Keys, o, req.properties).0), Bool(true))
  }

  /** The `ObjectsFem` constructor for a short type name: the two overrides,
      else `make<short>` when `ObjectsFem` has it. */
  function FemMakerFor(host: Host, short: string): (r: Option<string>)
    ensures short == "MaterialCommon" ==> r == Some("makeMaterialSolid")
    ensures short == "AnalysisPython" ==> r == Some("makeAnalysis")
    ensures short != "MaterialCommon" && short != "AnalysisPython"
            ==> (r.Some? <==> "make" + short in host.femMethods) && (r.Some? ==> r.value == "make" + short)
  {
    if short == "MaterialCommon" then Some("makeMaterialSolid")
    else if short == "AnalysisPython" then Some("makeAnalysis")
    else if "make" + short in host.femMethods then Some("make" + short)
    else None
  }

  /** The short type name of a `Fem::` type: the text after `Fem::` up to
      the next `::`. */
  function FemShortName(typeId: string): (r: string)
    requires StartsWith(typeId, "Fem::")
    ensures var rest := typeId[5..];
      |r| <= |rest| && rest[..|r|] == r
      && (forall i :: 0 <= i < |r| ==> !OccursAt(rest, "::", i))
      && (|r| < |rest| ==> OccursAt(rest, "::", |r|))
  {
    FemSplit(typeId[5..]);
    FirstPiece(typeId[5..], "::");
    assert typeId == "Fem::" + typeId[5..];
    Split(typeId, "::")[1]
  }

  /** `"Fem::" + rest` splits on `::` into `Fem` and the pieces of `rest`. */
  lemma FemSplit(rest: string)
    ensures Split("Fem::" + rest, "::") == ["Fem"] + Split(rest, "::")
  {
    var s3 := "::" + rest;
    assert s3[..2] == "::" && s3[2..] == rest;
    assert Split(s3, "::") == [""] + Split(rest, "::");
    var s2 := ['m'] + s3;
    assert s2[..2] == ['m', ':'];
    SplitCons('m', s3, "::");
    var s1 := ['e'] + s2;
    assert s1[..2] == ['e', 'm'];
    SplitCons('e', s2, "::");
    var s0 := ['F'] + s1;
    assert s0[..2] == ['F', 'e'];
    SplitCons('F', s1, "::");
    assert "Fem::" + rest == s0;
    var tail := Split(rest, "::");
    assert Split(s3, "::")[0] == "" && Split(s3, "::")[1..] == tail;
    assert Split(s2, "::")[0] == "m" && Split(s2, "::")[1..] == tail;
    assert Split(s1, "::")[0] == "em" && Split(s1, "::")[1..] == tail;
    assert Split(s0, "::")[0] == "Fem" && Split(s0, "::")[1..] == tail;
  }

  /** Splitting a string that does not start with the separator: its first
      character joins the first piece. */
  lemma SplitCons(ch: char, t: string, sep: string)
    requires |sep| > 0 && |sep| <= |t| + 1 && ([ch] + t)[..|sep|] != sep
    ensures Split([ch] + t, sep) == [[ch] + Split(t, sep)[0]] + Split(t, sep)[1..]
  {
    assert ([ch] + t)[1..] == t;
  }

  /** Every other `Fem::` type: the chosen `ObjectsFem` constructor, the
      property coercion, then attaching the object to the analysis unless
      it is the analysis container itself or no analysis is given. */
  function CreateFem(host: Host, doc: Doc, req: ObjectRequest): (r: (Doc, Value))
    requires StartsWith(req.typeId, "Fem::")
    ensures r.1 == Bool(true) || r.1.Str?
  {
    var short := FemShortName(req.typeId);
    match FemMakerFor(host, short)
    case None => (doc, Str("No creation method '" + "make" + short + "' found in ObjectsFem."))
    case Some(m) =>
      match host.create(FemMake(m), req.name, doc.objects.Keys)
      case Failure(e) => (doc, Str(e))
      case Success(o) =>
        var d1 := Put(doc, o);
        var o1 := ApplyProperties(d1.objects.Keys, o, req.properties).0;
        var d2 := Put(d1, o1);
        if req.typeId != "Fem::AnalysisPython" && Truthy(req.analysis) then
          match AnalysisOf(host, d2, req.analysis)
          case Failure(e) => (d2, Str(e))
          case Success(a) => (Attach(d2, a, o1.name), Bool(true))
        else (d2, Bool(true))
  }

  /** `if hasattr(res, param): setattr(res, param, value)` for one entry. */
  function ExistingStep(): (Obj, string, Value) -> (Obj, Option<Fault>) {
    (o: Obj, k: string, v: Value) => if k in o.declared then (Set(o, k, Raw(v)), None) else (o, None)
  }

  /** The remaining parameters of a mesh, each set only when the mesh has an
      attribute of that name. */
  function AssignExisting(obj: Obj, entries: seq<(string, Value)>): (r: Obj)
    ensures r.name == obj.name && r.typeId == obj.typeId && r.declared == obj.declared
    ensures r.group == obj.group && r.view == obj.view
    ensures forall p :: p !in obj.declared ==> MapAgree(r.props, obj.props, p)
  {
    ExistingFoldFrame(obj, entries);
    Fold(ExistingStep(), obj, entries).0
  }

  /** Setting only existing attributes keeps the mesh's identity, its view
      and every property it does not declare. */
  lemma {:induction false} ExistingFoldFrame(obj: Obj, entries: seq<(string, Value)>)
    ensures var r := Fold(ExistingStep(), obj, entries).0;
      r.name == obj.name && r.typeId == obj.typeId && r.declared == obj.declared
      && r.group == obj.group && r.view == obj.view
      && forall p :: p !in obj.declared ==> MapAgree(r.props, obj.props, p)
    decreases |entries|
  {
    if entries != [] {
      ExistingFoldFrame(ExistingStep()(obj, entries[0].0, entries[0].1).0, entries[1..]);
    }
  }

  /** Parameters the mesh does not have are ignored; a parameter it has
      holds one of the values sent for it. */
  lemma {:induction false} AssignExistingSetsOnlyDeclared(obj: Obj, entries: seq<(string, Value)>, p: string)
    ensures var r := AssignExisting(obj, entries);
      r.declared == obj.declared && r.name == obj.name && r.group == obj.group && r.view == obj.view
      && (p !in obj.declared || !HasKey(entries, p) ==> MapAgree(r.props, obj.props, p))
      && (p in obj.declared && HasKey(entries, p)
          ==> p in r.props && exists i :: 0 <= i < |entries| && entries[i].0 == p && r.props[p] == Raw(entries[i].1))
    decreases |entries|
  {
    if entries != [] {
      var (k, v) := entries[0];
      var o1 := ExistingStep()(obj, k, v).0;
      AssignExistingSetsOnlyDeclared(o1, entries[1..], p);
      var r := AssignExisting(obj, entries);
      assert r == AssignExisting(o1, entries[1..]);
      if HasKey(entries[1..], p) {
        var j :| 0 <= j < |entries[1..]| && entries[1..][j].0 == p;
        assert entries[j + 1].0 == p;
      }
      if !HasKey(entries, p) {
        assert !HasKey(entries[1..], p) by {
          forall j | 0 <= j < |entries[1..]| ensures entries[1..][j].0 != p {
            assert entries[1..][j] == entries[j + 1];
          }
        }
        assert k != p by { assert entries[0].0 == k; }
      }
      if p in obj.declared && HasKey(entries, p) {
        if HasKey(entries[1..], p) {
          var i :| 0 <= i < |entries[1..]| && entries[1..][i].0 == p && r.props[p] == Raw(entries[1..][i].1);
          assert entries[i + 1] == entries[1..][i];
        } else {
          assert forall j :: 1 <= j < |entries| ==> entries[j] == entries[1..][j - 1];
          assert k == p;
          assert r.props[p] == Raw(entries[0].1);
        }
      }
    }
  }

  /** The loop over the mesh's remaining parameters. */
  method SetExistingAttributes(obj: Obj, entries: seq<(string, Value)>) returns (r: Obj)
    ensures r == AssignExisting(obj, entries)
  {
    r := obj;
    var i := 0;
    while i < |entries|
      invariant 0 <= i <= |entries|
      invariant r == Fold(ExistingStep(), obj, entries[..i]).0
    {
      var (param, value) := entries[i];
      FoldConcat(ExistingStep(), obj, entries[..i], [(param, value)]);
      assert entries[..i + 1] == entries[..i] + [(param, value)];
      assert [(param, value)][1..] == [];
      if param in r.declared {
        r := Set(r, param, Raw(value));
      }
      i := i + 1;
    }
    assert entries[..|entries|] == entries;
  }

  /** `Fem::FemMeshGmsh` with an analysis: the mesh is created and attached
      to the analysis first; then `Part` must name an object of the
      document; the other parameters the mesh has are set; then the mesh is
      generated. A failure after the mesh was created leaves it in the
      document. */
  function CreateMesh(host: Host, doc: Doc, req: ObjectRequest): (r: (Doc, Value))
    ensures r.1 == Bool(true) || r.1.Str?
  {
    match AnalysisOf(host, doc, req.analysis)
    case Failure(e) => (doc, Str(e))
    case Success(a) =>
      match host.create(MeshGmsh, req.name, doc.objects.Keys)
      case Failure(e) => (doc, Str(e))
      case Success(m) =>
        var d0 := Put(doc, m);
        assert a in d0.objects by { assert a == m.name || MapAgree(d0.objects, doc.objects, a); }
        var d1 := Attach(d0, a, m.name);
        if !HasKey(req.properties, "Part") then (d1, Str("'Part' property not found in properties."))
        else
          var part := Lookup(req.properties, "Part").value;
          if !part.Str? then (d1, Str(host.faultText(NameNotString(part))))
          else if part.s !in d1.objects then (d1, Str("Referenced object '" + part.s + "' not found."))
          else
            var mesh := if m.name in d1.objects then d1.objects[m.name] else m;
            var m2 := AssignExisting(Set(mesh, "Part", Link(part.s)), RemoveKey(req.properties, "Part"));
            var d2 := Put(d1, m2);
            match host.meshError(m2)
            case Some(e) => (d2, Str(e))
            case None => (d2, Bool(true))
  }

  /** `_create_object_gui`: a missing document is reported; otherwise the
      type decides the path. */
  function CreateObjectGui(host: Host, g: Gui, docName: string, req: ObjectRequest): (r: (Gui, Value))
    ensures r.1 == Bool(true) || r.1.Str?
    ensures r.0.view == g.view
    ensures forall d :: d != docName ==> MapAgree(r.0.docs, g.docs, d)
    ensures docName !in g.docs ==> r == (g, Str("Document '" + docName + "' not found.\n"))
  {
    if docName !in g.docs then (g, Str("Document '" + docName + "' not found.\n"))
    else
      var doc := g.docs[docName];
      var (d, res) :=
        if req.typeId == "Fem::FemMeshGmsh" && Truthy(req.analysis) then CreateMesh(host, doc, req)
        else if StartsWith(req.typeId, "Fem::") then CreateFem(host, doc, req)
        else CreateGeneric(host, doc, req);
      (g.(docs := g.docs[docName := d]), res)
  }

  // ---------------------------------------------------------------------
  // edit_object

  /** `for ref_name, face in value`: the items a loop over the `References`
      value of an edit visits, or the fault of a value that is not iterable. */
  function RefsOf(names: set<string>, v: Value): (r: Attempt<seq<(string, Value)>>)
    ensures !(v.List? || v.Str? || v.Dict?) ==> r == Err(NotIterable(v))
    ensures v.List? ==> (r.Ok? <==> forall i :: 0 <= i < |v.items| ==> RefFault(names, v.items[i]).None?)
    ensures r.Ok? ==> forall i :: 0 <= i < |r.value| ==> r.value[i].0 in names
  {
    match v
    case List(items) => ResolvedRefs(names, items)
    case Str(s) => ResolvedRefs(names, seq(|s|, i requires 0 <= i < |s| => Str([s[i]])))
    case Dict(es) => ResolvedRefs(names, seq(|es|, i requires 0 <= i < |es| => Str(es[i].0)))
    case _ => Err(NotIterable(v))
  }

  /** The object after an edit of existing object `o` in a document whose
      object names are `names`, or the text of the References failure. */
  function EditObject(host: Host, names: set<string>, o: Obj, props: seq<(string, Value)>): (r: Result<Obj>)
    ensures r.Failure? <==> "References" in o.declared && HasKey(props, "References")
                            && RefsOf(names, Lookup(props, "References").value).Err?
    ensures r.Failure? ==> r.error == FaultMessage(host, RefsOf(names, Lookup(props, "References").value).fault)
    ensures r.Success? ==> r.value.name == o.name && r.value.typeId == o.typeId
                           && r.value.declared == o.declared && r.value.group == o.group
    ensures r.Success? && "References" in o.declared && HasKey(props, "References")
            ==> "References" in r.value.props
                && r.value.props["References"] == LinkSubs(RefsOf(names, Lookup(props, "References").value).value)
  {
    if "References" in o.declared && HasKey(props, "References") then
      match RefsOf(names, Lookup(props, "References").value)
      case Err(f) => Failure(FaultMessage(host, f))
      case Ok(links) =>
        var o1 := Set(o, "References", LinkSubs(links));
        ApplyPropertiesFrame(names, o1, RemoveKey(props, "References"));
        Success(ApplyProperties(names, o1, RemoveKey(props, "References")).0)
    else
      ApplyPropertiesFrame(names, o, props);
      Success(ApplyProperties(names, o, props).0)
  }

  /** `_edit_object_gui`: the document and the object must exist; the
      `References` of the request, when the object has such a property, are
      resolved first and removed from the generic pass; a failure there
      changes nothing. */
  function EditObjectGui(host: Host, g: Gui, docName: string, name: string, props: seq<(string, Value)>)
    : (r: (Gui, Value))
    ensures r.1 == Bool(true) || r.1.Str?
    ensures r.0.view == g.view
    ensures r.1 != Bool(true) ==> r.0 == g
    ensures docName !in g.docs ==> r.1 == Str("Document '" + docName + "' not found.\n")
    ensures docName in g.docs && name !in g.docs[docName].objects
            ==> r.1 == Str("Object '" + name + "' not found in document '" + docName + "'.\n")
    ensures forall d :: d != docName ==> MapAgree(r.0.docs, g.docs, d)
    ensures r.1 == Bool(true)
            ==> docName in g.docs && name in g.docs[docName].objects && docName in r.0.docs
                && name in r.0.docs[docName].objects
                && forall n :: n != name ==> MapAgree(r.0.docs[docName].objects, g.docs[docName].objects, n)
  {
    if docName !in g.docs then (g, Str("Document '" + docName + "' not found.\n"))
    else
      var doc := g.docs[docName];
      if name !in doc.objects then (g, Str("Object '" + name + "' not found in document '" + docName + "'.\n"))
      else
        match EditObject(host, doc.objects.Keys, doc.objects[name], props)
        case Failure(e) => (g, Str(e))
        case Success(o) => (g.(docs := g.docs[docName := Doc(doc.objects[name := o])]), Bool(true))
  }

  // ---------------------------------------------------------------------
  // delete_object, insert_part_from_library, execute_code, screenshots

  /** `_delete_object_gui`: remove the object, or report why not. */
  function DeleteObjectGui(host: Host, g: Gui, docName: string, name: string): (r: (Gui, Value))
    ensures r.0.view == g.view
    ensures r.1 == Bool(true) <==> docName in g.docs && name in g.docs[docName].objects
    ensures r.1 == Bool(true)
            ==> (docName in r.0.docs && r.0.docs[docName].objects == g.docs[docName].objects - {name}
                 && forall d :: d != docName ==> MapAgree(r.0.docs, g.docs, d))
    ensures r.1 != Bool(true) ==> r.0 == g && r.1.Str?
  {
    if docName !in g.docs then (g, Str("Document '" + docName + "' not found.\n"))
    else if name !in g.docs[docName].objects then (g, Str(host.removeError(name)))
    else (g.(docs := g.docs[docName := Doc(g.docs[docName].objects - {name})]), Bool(true))
  }

  /** `_insert_part_from_library`: True, or the text of what the library
      insert raises; whatever the insert did to the GUI state stays. */
  function InsertPartGui(host: Host, g: Gui, path: string): (r: (Gui, Value))
    ensures r.0 == host.insertPart(path, g).0
    ensures r.1 == Bool(true) <==> host.insertPart(path, g).1.None?
    ensures r.1 != Bool(true) ==> r.1 == Str(host.insertPart(path, g).1.value)
  {
    var (g2, err) := host.insertPart(path, g);
    match err
    case None => (g2, Bool(true))
    case Some(e) => (g2, Str(e))
  }

  /** The `execute_code` closure: True, or the exception embedded in a fixed
      sentence; what the code did before it raised stays done. */
  function ExecuteCodeGui(host: Host, g: Gui, code: string): (r: (Gui, Value))
    ensures r.0 == host.exec(code, g).0
    ensures r.1 == Bool(true) <==> host.exec(code, g).1.None?
    ensures r.1 != Bool(true) ==> r.1 == Str("Error executing Python code: " + host.exec(code, g).1.value + "\n")
  {
    var (g2, err, _) := host.exec(code, g);
    match err
    case None => (g2, Bool(true))
    case Some(e) => (g2, Str("Error executing Python code: " + e + "\n"))
  }

  /** The `insert_part_from_library` reply: success exactly when the insert
      raises nothing, and then the fixed message; otherwise the raised text
      as the error. */
  lemma InsertPartReply(host: Host, g: Gui, path: string)
    ensures var r := Envelope(InsertPartGui(host, g, path).1, "message", Str("Part inserted from library."));
      var err := host.insertPart(path, g).1;
      (Lookup(r.entries, "success") == Some(Bool(true)) <==> err.None?)
      && (err.None? ==> Lookup(r.entries, "message") == Some(Str("Part inserted from library.")))
      && (err.Some? ==> Lookup(r.entries, "error") == Some(Str(err.value)))
  {
  }

  /** The `execute_code` reply: success exactly when the code raises
      nothing, and then the message carries what it printed; otherwise the
      error names the exception. */
  lemma ExecuteCodeReply(host: Host, g: Gui, code: string)
    ensures var (_, err, out) := host.exec(code, g);
      var msg := "Python code execution scheduled. \nOutput: " + out;
      var r := Envelope(ExecuteCodeGui(host, g, code).1, "message", Str(msg));
      (Lookup(r.entries, "success") == Some(Bool(true)) <==> err.None?)
      && (err.None? ==> Lookup(r.entries, "message") == Some(Str(msg)))
      && (err.Some? ==> Lookup(r.entries, "error") == Some(Str("Error executing Python code: " + err.value + "\n")))
  {
  }

  /** `check_view_supports_screenshots`: whether the active view can export
      an image (False when there is none). */
  function CheckViewGui(g: Gui): (r: (Gui, Value))
    ensures r.0 == g
    ensures r.1 == Bool(g.view.View3D? && g.view.savesImages)
  {
    match g.view
    case NoActiveDocument => (g, Bool(false))
    case NoActiveView => (g, Bool(false))
    case View3D(saves, _, _) => (g, Bool(saves))
  }

  /** `_save_active_screenshot`: orient the view by one of the nine names
      and save an image to `path`. */
  function SaveActiveScreenshotGui(g: Gui, path: string, viewName: string): (r: (Gui, Value))
    ensures r.0.docs == g.docs
    ensures r.1 == Bool(true) <==> g.view.View3D? && g.view.savesImages && viewName in ViewNames
    ensures r.1 == Bool(true) ==> r.0.view == View3D(true, viewName, g.view.saved + [path])
    ensures r.1 != Bool(true) ==> r.0 == g && r.1.Str?
    ensures g.view.NoActiveDocument? ==> r.1 == Str("'NoneType' object has no attribute 'ActiveView'")
    ensures g.view.NoActiveView? || (g.view.View3D? && !g.view.savesImages)
            ==> r.1 == Str("Current view does not support screenshots")
    ensures g.view.View3D? && g.view.savesImages && viewName !in ViewNames
            ==> r.1 == Str("Invalid view name: " + viewName)
  {
    match g.view
    case NoActiveDocument => (g, Str("'NoneType' object has no attribute 'ActiveView'"))
    case NoActiveView => (g, Str("Current view does not support screenshots"))
    case View3D(saves, _, saved) =>
      if !saves then (g, Str("Current view does not support screenshots"))
      else if viewName !in ViewNames then (g, Str("Invalid view name: " + viewName))
      else (g.(view := View3D(true, viewName, saved + [path])), Bool(true))
  }

  /** A screenshot with no orientation named, on a view that saves images,
      always succeeds and leaves the view turned to `Isometric`. */
  lemma DefaultScreenshotTurnsIsometric(g: Gui, path: string)
    requires g.view.View3D? && g.view.savesImages
    ensures SaveActiveScreenshotGui(g, path, DefaultViewName)
            == (g.(view := View3D(true, "Isometric", g.view.saved + [path])), Bool(true))
  {
    assert DefaultViewName == ViewNames[0];
  }

  // ---------------------------------------------------------------------
  // Node op-codes

  /** `node_type_op_code.split("'")[1].rsplit('.', 1)` unpacked into a
      module and a class name, or the text of what it raises. */
  function ParseOpCode(opCode: string): (r: Result<(string, string)>)
    ensures r.Success? ==> '\'' !in r.value.0 && '\'' !in r.value.1 && '.' !in r.value.1
  {
    var parts := Split(opCode, "'");
    if |parts| < 2 then Failure("list index out of range")
    else
      var path := parts[1];
      SplitPieceHasNoSeparator(opCode, '\'', 1);
      match RSplitOnce(path, '.')
      case None => Failure("not enough values to unpack (expected 2, got 1)")
      case Some((m, c)) =>
        NotInParts(m, '.', c, '\'');
        Success((m, c))
  }

  /** The op-code of a node class written as Python prints a class parses
      back into that module and class. */
  lemma {:induction false} OpCodeRoundTrip(m: string, c: string)
    requires '\'' !in m && '\'' !in c && '.' !in c
    ensures ParseOpCode("<class '" + m + "." + c + "'>") == Success((m, c))
  {
    var path := m + "." + c;
    assert '\'' !in path;
    var s := "<class '" + path + "'>";
    assert '\'' !in "<class ";
    assert s == "<class " + ['\''] + (path + "'>");
    SplitAtFirst("<class ", '\'', path + "'>");
    assert path + "'>" == path + ['\''] + ">";
    SplitAtFirst(path, '\'', ">");
    assert Split(s, "'")[1] == path;
    assert path == m + ['.'] + c;
    RSplitOnceJoin(m, '.', c);
    assert |Split(s, "'")| >= 2;
    assert "<class '" + m + "." + c + "'>" == s;
  }

  /** The node-creation reply for an op-code that does not parse. */
  function NodeParseFailure(opCode: string): (r: Value)
    requires ParseOpCode(opCode).Failure?
    ensures r.Dict? && Lookup(r.entries, "success") == Some(Bool(false))
    ensures Lookup(r.entries, "message") == Some(Str("Error creating node: " + ParseOpCode(opCode).error))
  {
    var msg := Str("Error creating node: " + ParseOpCode(opCode).error);
    var es := [("success", Bool(false)), ("node_id", Null), ("title", Null), ("message", msg)];
    assert Lookup(es[3..], "message") == Some(msg);
    assert es[2..][1..] == es[3..] && es[1..][1..] == es[2..] && es[1..] == es[1..];
    assert Lookup(es[2..], "message") == Some(msg);
    assert Lookup(es[1..], "message") == Some(msg);
    Dict(es)
  }

  // ---------------------------------------------------------------------
  // Envelopes and request parsing

  /** `{"success": True, key: payload}` when the result `is True`, else
      `{"success": False, "error": res}`. */
  function Envelope(res: Value, key: string, payload: Value): (r: Value)
    requires key != "success"
    ensures r.Dict? && Lookup(r.entries, "success") == Some(Bool(res == Bool(true)))
    ensures res == Bool(true) ==> Lookup(r.entries, key) == Some(payload)
    ensures res != Bool(true) ==> Lookup(r.entries, "error") == Some(res)
  {
    if res == Bool(true) then
      var es := [("success", Bool(true)), (key, payload)];
      assert es[1..] == [(key, payload)];
      Dict(es)
    else
      var es := [("success", Bool(false)), ("error", res)];
      assert es[1..] == [("error", res)];
      Dict(es)
  }

  /** Success exactly when the result is the value True: any other result,
      a truthy string included, comes back verbatim as the error. */
  lemma EnvelopeSuccessIffTrue(res: Value, key: string, payload: Value)
    requires key != "success" && key != "error"
    ensures var r := Envelope(res, key, payload);
      r.Dict? && (Lookup(r.entries, "success") == Some(Bool(true)) <==> res == Bool(true))
      && (res == Bool(true) ==> Lookup(r.entries, key) == Some(payload) && !HasKey(r.entries, "error"))
      && (res != Bool(true) ==> Lookup(r.entries, "error") == Some(res) && !HasKey(r.entries, key))
  {
    var r := Envelope(res, key, payload);
    if res == Bool(true) {
      assert r.entries[1].0 == key;
    } else {
      assert r.entries[1].0 == "error";
    }
  }

  /** The `Object` that `create_object` builds from `obj_data`: `Name`
      defaults to `New_Object`, `Analysis` to None, `Properties` to `{}`;
      a missing `Type` raises KeyError. */
  function ParseObjectRequest(objData: Value): (r: Result<ObjectRequest>)
    ensures objData.Dict? && !HasKey(objData.entries, "Type") ==> r == Failure("'Type'")
    ensures r.Success? ==> objData.Dict?
    ensures r.Success? && !HasKey(objData.entries, "Name") ==> r.value.name == "New_Object"
    ensures r.Success? && !HasKey(objData.entries, "Properties") ==> r.value.properties == []
    ensures r.Success? && !HasKey(objData.entries, "Analysis") ==> r.value.analysis == Null
  {
    if !objData.Dict? then Failure("'" + TypeName(objData) + "' object has no attribute 'get'")
    else
      var d := objData.entries;
      var name := GetOr(d, "Name", Str("New_Object"));
      match Subscript(objData, "Type")
      case Failure(e) => Failure(e)
      case Success(t) =>
        var props := GetOr(d, "Properties", Dict([]));
        if !name.Str? then Failure("object name is not a string")
        else if !t.Str? then Failure("object type is not a string")
        else if !props.Dict? then Failure("Properties is not a mapping")
        else Success(ObjectRequest(name.s, t.s, GetOr(d, "Analysis", Null), props.entries))
  }

  /** The properties `edit_object` passes on: only the `Properties`
      sub-mapping of what it receives. */
  function EditProperties(properties: Value): (r: Result<seq<(string, Value)>>)
    ensures properties.Dict? && !HasKey(properties.entries, "Properties") ==> r == Success([])
    ensures properties.Dict? && Lookup(properties.entries, "Properties").Some?
            && Lookup(properties.entries, "Properties").value.Dict?
            ==> r == Success(Lookup(properties.entries, "Properties").value.entries)
  {
    if !properties.Dict? then Failure("'" + TypeName(properties) + "' object has no attribute 'get'")
    else match GetOr(properties.entries, "Properties", Dict([]))
      case Dict(es) => Success(es)
      case _ => Failure("Properties is not a mapping")
  }

  /** Python's type name of a value. */
  function TypeName(v: Value): (r: string) {
    match v
    case Null => "NoneType"
    case Bool(_) => "bool"
    case Num(_) => "float"
    case Str(_) => "str"
    case List(_) => "list"
    case Dict(_) => "dict"
  }

  // ---------------------------------------------------------------------
  // The closures as bridge tasks

  datatype Task =
    | CreateDocumentTask(docName: string)
    | CreateObjectTask(doc: string, req: ObjectRequest)
    | EditObjectTask(doc: string, obj: string, props: seq<(string, Value)>)
    | DeleteObjectTask(doc: string, obj: string)
    | InsertPartTask(path: string)
    | ExecuteCodeTask(code: string)
    | CheckViewTask
    | SaveScreenshotTask(path: string, viewName: string)

  /** Running a closure on the GUI thread. Every closure of the dispatcher
      returns a value, so none leaves its caller waiting. */
  function RunTask(host: Host, g: Gui, t: Task): (r: (Gui, Value))
    ensures r.1 != Null
  {
    match t
    case CreateDocumentTask(n) => CreateDocumentGui(host, g, n)
    case CreateObjectTask(d, req) => CreateObjectGui(host, g, d, req)
    case EditObjectTask(d, n, props) => EditObjectGui(host, g, d, n, props)
    case DeleteObjectTask(d, n) => DeleteObjectGui(host, g, d, n)
    case InsertPartTask(p) => InsertPartGui(host, g, p)
    case ExecuteCodeTask(c) => ExecuteCodeGui(host, g, c)
    case CheckViewTask => CheckViewGui(g)
    case SaveScreenshotTask(p, v) => SaveActiveScreenshotGui(g, p, v)
  }

  /** `FreeCADRPC`: every method submits its closure through the bridge
      and waits for the result. */
  class FreeCadRpc {
    const bridge: Bridge.Bridge<Gui, Task>
    const host: Host

    constructor (b: Bridge.Bridge<Gui, Task>, h: Host)
      ensures bridge == b && host == h
    {
      bridge := b;
      host := h;
    }

    /** The bridge is idle and its timer is armed: a submitted closure will
        run and its result will be waiting. */
    predicate Ready()
      reads this, bridge
    {
      bridge.requests == [] && bridge.responses == [] && bridge.pendingTimers > 0
    }

    method Submit(t: Task) returns (res: Value)
      requires Ready()
      modifies bridge
      ensures Ready()
      ensures (bridge.gui, res) == RunTask(host, old(bridge.gui), t)
      ensures bridge.trace == old(bridge.trace) + [Bridge.Ran(t), Bridge.Rearm]
    {
      var h := host;
      res := bridge.SubmitAndWait(t, (g, t') => RunTask(h, g, t'));
    }

    /** `create_document`: the name defaults to `New_Document`; the reply
        carries the name asked for. */
    method CreateDocument(name: string := DefaultDocumentName) returns (r: Value)
      requires Ready()
      modifies bridge
      ensures Ready()
      ensures var (g, res) := CreateDocumentGui(host, old(bridge.gui), name);
        bridge.gui == g && r == Envelope(res, "document_name", Str(name))
    {
      var res := Submit(CreateDocumentTask(name));
      r := Envelope(res, "document_name", Str(name));
    }

    /** `create_object`: a request that does not parse raises before
        anything is submitted. */
    method CreateObject(docName: string, objData: Value) returns (r: Result<Value>)
      requires Ready()
      modifies bridge
      ensures Ready()
      ensures ParseObjectRequest(objData).Failure?
              ==> r == Failure(ParseObjectRequest(objData).error) && bridge.gui == old(bridge.gui)
      ensures ParseObjectRequest(objData).Success?
              ==> var req := ParseObjectRequest(objData).value;
                  var (g, res) := CreateObjectGui(host, old(bridge.gui), docName, req);
                  bridge.gui == g && r == Success(Envelope(res, "object_name", Str(req.name)))
    {
      var parsed := ParseObjectRequest(objData);
      if parsed.Failure? {
        return Failure(parsed.error);
      }
      var res := Submit(CreateObjectTask(docName, parsed.value));
      r := Success(Envelope(res, "object_name", Str(parsed.value.name)));
    }

    method EditObject(docName: string, objName: string, properties: Value) returns (r: Result<Value>)
      requires Ready()
      modifies bridge
      ensures Ready()
      ensures EditProperties(properties).Failure?
              ==> r == Failure(EditProperties(properties).error) && bridge.gui == old(bridge.gui)
      ensures EditProperties(properties).Success?
              ==> var (g, res) := EditObjectGui(host, old(bridge.gui), docName, objName, EditProperties(properties).value);
                  bridge.gui == g && r == Success(Envelope(res, "object_name", Str(objName)))
    {
      var props := EditProperties(properties);
      if props.Failure? {
        return Failure(props.error);
      }
      var res := Submit(EditObjectTask(docName, objName, props.value));
      r := Success(Envelope(res, "object_name", Str(objName)));
    }

    method DeleteObject(docName: string, objName: string) returns (r: Value)
      requires Ready()
      modifies bridge
      ensures Ready()
      ensures var (g, res) := DeleteObjectGui(host, old(bridge.gui), docName, objName);
        bridge.gui == g && r == Envelope(res, "object_name", Str(objName))
    {
      var res := Submit(DeleteObjectTask(docName, objName));
      r := Envelope(res, "object_name", Str(objName));
    }

    method InsertPartFromLibrary(path: string) returns (r: Value)
      requires Ready()
      modifies bridge
      ensures Ready()
      ensures var (g, res) := InsertPartGui(host, old(bridge.gui), path);
        bridge.gui == g && r == Envelope(res, "message", Str("Part inserted from library."))
    {
      var res := Submit(InsertPartTask(path));
      r := Envelope(res, "message", Str("Part inserted from library."));
    }

    /** `execute_code`: the success message carries what the code printed
        into the buffer the closure redirected its output to. */
    method ExecuteCode(code: string) returns (r: Value)
      requires Ready()
      modifies bridge
      ensures Ready()
      ensures var (g, res) := ExecuteCodeGui(host, old(bridge.gui), code);
        bridge.gui == g
        && r == Envelope(res, "message", Str("Python code execution scheduled. \nOutput: " + host.exec(code, old(bridge.gui)).2))
    {
      var g0 := bridge.gui;
      var res := Submit(ExecuteCodeTask(code));
      r := Envelope(res, "message", Str("Python code execution scheduled. \nOutput: " + host.exec(code, g0).2));
    }

    /** `get_active_screenshot`: None when the view cannot export images or
        the capture fails; otherwise the encoded image of the view in the
        requested orientation, `Isometric` unless another is named. A
        capture leaves the view turned to that orientation. */
    method GetActiveScreenshot(path: string, viewName: string := DefaultViewName) returns (r: Option<string>)
      requires Ready()
      modifies bridge
      ensures Ready()
      ensures bridge.gui.docs == old(bridge.gui.docs)
      ensures r.Some? <==> old(bridge.gui.view).View3D? && old(bridge.gui.view).savesImages && viewName in ViewNames
      ensures r.Some? ==> r.value == host.render(viewName)
      ensures r.Some? ==> bridge.gui.view == View3D(true, viewName, old(bridge.gui.view).saved + [path])
      ensures r.None? ==> bridge.gui == old(bridge.gui)
    {
      var supported := Submit(CheckViewTask);
      if !Truthy(supported) {
        return None;
      }
      var res := Submit(SaveScreenshotTask(path, viewName));
      if res == Bool(true) {
        r := Some(host.render(viewName));
      } else {
        r := None;
      }
    }
  }

  // ---------------------------------------------------------------------
  // Properties of the closures

  /** The generic path creates the object and runs the coercion on it with
      the document's names; nothing else in the document changes. */
  lemma GenericCreateCoerces(host: Host, g: Gui, docName: string, req: ObjectRequest)
    requires docName in g.docs && !StartsWith(req.typeId, "Fem::")
    requires host.create(AddObject(req.typeId), req.name, g.docs[docName].objects.Keys).Success?
    ensures var o := host.create(AddObject(req.typeId), req.name, g.docs[docName].objects.Keys).value;
      var r := CreateObjectGui(host, g, docName, req);
      r.1 == Bool(true) && docName in r.0.docs
      && r.0.docs[docName].objects[o.name]
         == ApplyProperties(g.docs[docName].objects.Keys + {o.name}, o, req.properties).0
      && forall n :: n != o.name ==> MapAgree(r.0.docs[docName].objects, g.docs[docName].objects, n)
  {
    assert StartsWith("Fem::FemMeshGmsh", "Fem::");
    var doc := g.docs[docName];
    var o := host.create(AddObject(req.typeId), req.name, doc.objects.Keys).value;
    var d1 := Put(doc, o);
    assert d1.objects.Keys == doc.objects.Keys + {o.name};
    var o2 := ApplyProperties(d1.objects.Keys, o, req.properties).0;
    ApplyPropertiesFrame(d1.objects.Keys, o, req.properties);
    assert CreateGeneric(host, doc, req) == (Put(d1, o2), Bool(true));
    assert CreateObjectGui(host, g, docName, req) == (g.(docs := g.docs[docName := Put(d1, o2)]), Bool(true));
  }

  /** A mesh for an analysis without a `Part` is reported, but the mesh
      object it created stays in the document and in the analysis. */
  lemma MeshWithoutPartLeavesMesh(host: Host, g: Gui, docName: string, req: ObjectRequest, a: string)
    requires docName in g.docs && req.typeId == "Fem::FemMeshGmsh" && req.analysis == Str(a)
    requires a in g.docs[docName].objects && a != ""
    requires host.create(MeshGmsh, req.name, g.docs[docName].objects.Keys).Success?
    requires host.create(MeshGmsh, req.name, g.docs[docName].objects.Keys).value.name != a
    requires !HasKey(req.properties, "Part")
    ensures var m := host.create(MeshGmsh, req.name, g.docs[docName].objects.Keys).value;
      var r := CreateObjectGui(host, g, docName, req);
      r.1 == Str("'Part' property not found in properties.")
      && docName in r.0.docs && m.name in r.0.docs[docName].objects
      && a in r.0.docs[docName].objects
      && r.0.docs[docName].objects[a].group == g.docs[docName].objects[a].group + [m.name]
  {
    var doc := g.docs[docName];
    var m := host.create(MeshGmsh, req.name, doc.objects.Keys).value;
    assert Truthy(req.analysis);
    var d0 := Put(doc, m);
    assert d0.objects[a] == doc.objects[a] by { assert MapAgree(d0.objects, doc.objects, a); }
    var d1 := Attach(d0, a, m.name);
    assert CreateMesh(host, doc, req) == (d1, Str("'Part' property not found in properties."));
    assert m.name in d1.objects by { assert MapAgree(d1.objects, d0.objects, m.name); }
  }

  lemma AnalysisPythonShortName()
    ensures StartsWith("Fem::AnalysisPython", "Fem::") && FemShortName("Fem::AnalysisPython") == "AnalysisPython"
  {
    NoFirstCharNoOccurrence("AnalysisPython", "::");
    ShortNameOf("AnalysisPython");
    assert "Fem::AnalysisPython" == "Fem::" + "AnalysisPython";
  }

  /** The short name of `Fem::` followed by a name without `::` is that name. */
  lemma ShortNameOf(rest: string)
    requires !Contains(rest, "::")
    ensures StartsWith("Fem::" + rest, "Fem::") && FemShortName("Fem::" + rest) == rest
  {
    var t := "Fem::" + rest;
    assert t[..5] == "Fem::" && t[5..] == rest;
    FemSplit(rest);
    SplitWithoutSeparator(rest, "::");
  }

  /** Only a `Fem::` type other than the analysis container is attached to
      the analysis it names. */
  lemma AnalysisContainerNotAttached(host: Host, g: Gui, docName: string, req: ObjectRequest)
    requires docName in g.docs && req.typeId == "Fem::AnalysisPython"
    requires host.create(FemMake("makeAnalysis"), req.name, g.docs[docName].objects.Keys).Success?
    ensures var o := host.create(FemMake("makeAnalysis"), req.name, g.docs[docName].objects.Keys).value;
      var r := CreateObjectGui(host, g, docName, req);
      r.1 == Bool(true) && docName in r.0.docs
      && forall n :: n != o.name ==> MapAgree(r.0.docs[docName].objects, g.docs[docName].objects, n)
  {
    var doc := g.docs[docName];
    var o := host.create(FemMake("makeAnalysis"), req.name, doc.objects.Keys).value;
    var d1 := Put(doc, o);
    var o1 := ApplyProperties(d1.objects.Keys, o, req.properties).0;
    ApplyPropertiesFrame(d1.objects.Keys, o, req.properties);
    AnalysisCreatedUnattached(host, doc, req);
    assert req.typeId != "Fem::FemMeshGmsh";
  }

  /** The analysis container is created, coerced and put in the document. */
  lemma AnalysisCreatedUnattached(host: Host, doc: Doc, req: ObjectRequest)
    requires req.typeId == "Fem::AnalysisPython"
    requires host.create(FemMake("makeAnalysis"), req.name, doc.objects.Keys).Success?
    ensures StartsWith(req.typeId, "Fem::")
    ensures var o := host.create(FemMake("makeAnalysis"), req.name, doc.objects.Keys).value;
      var d1 := Put(doc, o);
      CreateFem(host, doc, req) == (Put(d1, ApplyProperties(d1.objects.Keys, o, req.properties).0), Bool(true))
  {
    AnalysisPythonShortName();
  }

  /** An edit whose `References` cannot all be resolved changes nothing; one
      whose references resolve sets them and runs the coercion on the other
      keys only. */
  lemma EditReferencesFirst(host: Host, g: Gui, docName: string, name: string, props: seq<(string, Value)>)
    requires docName in g.docs && name in g.docs[docName].objects
    requires "References" in g.docs[docName].objects[name].declared && HasKey(props, "References")
    ensures var doc := g.docs[docName];
      var refs := RefsOf(doc.objects.Keys, Lookup(props, "References").value);
      var r := EditObjectGui(host, g, docName, name, props);
      (refs.Err? ==> r == (g, Str(FaultMessage(host, refs.fault))))
      && (refs.Ok?
          ==> (r.1 == Bool(true) && docName in r.0.docs && name in r.0.docs[docName].objects
               && r.0.docs[docName].objects[name]
                  == ApplyProperties(doc.objects.Keys, Set(doc.objects[name], "References", LinkSubs(refs.value)),
                                     RemoveKey(props, "References")).0))
  {
  }

  /** After a successful edit, `References` holds exactly the resolved pairs:
      the generic pass never sees the key. */
  lemma EditedReferencesKept(host: Host, g: Gui, docName: string, name: string, props: seq<(string, Value)>)
    requires docName in g.docs && name in g.docs[docName].objects
    requires "References" in g.docs[docName].objects[name].declared && HasKey(props, "References")
    requires RefsOf(g.docs[docName].objects.Keys, Lookup(props, "References").value).Ok?
    ensures var r := EditObjectGui(host, g, docName, name, props);
      docName in r.0.docs && name in r.0.docs[docName].objects
      && "References" in r.0.docs[docName].objects[name].props
      && r.0.docs[docName].objects[name].props["References"]
         == LinkSubs(RefsOf(g.docs[docName].objects.Keys, Lookup(props, "References").value).value)
  {
    var doc := g.docs[docName];
    var links := RefsOf(doc.objects.Keys, Lookup(props, "References").value).value;
    var o1 := Set(doc.objects[name], "References", LinkSubs(links));
    var rest := RemoveKey(props, "References");
    ApplyPropertiesFrame(doc.objects.Keys, o1, rest);
    assert MapAgree(ApplyProperties(doc.objects.Keys, o1, rest).0.props, o1.props, "References");
  }

  /** A constructor that raises on the generic path is reported with its
      text, and the GUI state is as before. */
  lemma GenericCreateFails(host: Host, g: Gui, docName: string, req: ObjectRequest)
    requires docName in g.docs && !StartsWith(req.typeId, "Fem::")
    requires host.create(AddObject(req.typeId), req.name, g.docs[docName].objects.Keys).Failure?
    ensures CreateObjectGui(host, g, docName, req)
         == (g, Str(host.create(AddObject(req.typeId), req.name, g.docs[docName].objects.Keys).error))
  {
    assert StartsWith("Fem::FemMeshGmsh", "Fem::");
    assert g.docs[docName := g.docs[docName]] == g.docs;
  }

  /** A `Fem::` type with no constructor in `ObjectsFem` is reported by the
      name it looked for, and the GUI state is as before. */
  lemma FemWithoutMakerFails(host: Host, g: Gui, docName: string, req: ObjectRequest)
    requires docName in g.docs && StartsWith(req.typeId, "Fem::")
    requires !(req.typeId == "Fem::FemMeshGmsh" && Truthy(req.analysis))
    requires FemMakerFor(host, FemShortName(req.typeId)).None?
    ensures CreateObjectGui(host, g, docName, req)
         == (g, Str("No creation method 'make" + FemShortName(req.typeId) + "' found in ObjectsFem."))
  {
    assert g.docs[docName := g.docs[docName]] == g.docs;
    assert "No creation method '" + "make" + FemShortName(req.typeId)
        == "No creation method 'make" + FemShortName(req.typeId);
  }

  /** A `Fem::` object other than the analysis container, created for an
      analysis of the document under a fresh name, is coerced and appended
      to that analysis' group; nothing else in the document changes. */
  lemma FemAttachedToAnalysis(host: Host, g: Gui, docName: string, req: ObjectRequest, a: string)
    requires docName in g.docs && StartsWith(req.typeId, "Fem::")
    requires req.typeId != "Fem::FemMeshGmsh" && req.typeId != "Fem::AnalysisPython"
    requires req.analysis == Str(a) && a != "" && a in g.docs[docName].objects
    requires FemMakerFor(host, FemShortName(req.typeId)).Some?
    requires var m := FemMake(FemMakerFor(host, FemShortName(req.typeId)).value);
      host.create(m, req.name, g.docs[docName].objects.Keys).Success?
      && host.create(m, req.name, g.docs[docName].objects.Keys).value.name !in g.docs[docName].objects
    ensures var keys := g.docs[docName].objects.Keys;
      var o := host.create(FemMake(FemMakerFor(host, FemShortName(req.typeId)).value), req.name, keys).value;
      var r := CreateObjectGui(host, g, docName, req);
      var objs := r.0.docs[docName].objects;
      r.1 == Bool(true) && docName in r.0.docs
      && o.name in objs && objs[o.name] == ApplyProperties(keys + {o.name}, o, req.properties).0
      && a in objs && objs[a].group == g.docs[docName].objects[a].group + [o.name]
      && forall n :: n != o.name && n != a ==> MapAgree(objs, g.docs[docName].objects, n)
  {
    var doc := g.docs[docName];
    var o := host.create(FemMake(FemMakerFor(host, FemShortName(req.typeId)).value), req.name, doc.objects.Keys).value;
    var d1 := Put(doc, o);
    assert d1.objects.Keys == doc.objects.Keys + {o.name};
    var o1 := ApplyProperties(d1.objects.Keys, o, req.properties).0;
    ApplyPropertiesFrame(d1.objects.Keys, o, req.properties);
    var d2 := Put(d1, o1);
    assert d2.objects[a] == doc.objects[a] by {
      assert MapAgree(d2.objects, d1.objects, a) && MapAgree(d1.objects, doc.objects, a);
    }
    assert Truthy(req.analysis);
    var d3 := Attach(d2, a, o1.name);
    assert CreateFem(host, doc, req) == (d3, Bool(true));
    assert d3.objects[o.name] == o1 by { assert MapAgree(d3.objects, d2.objects, o.name); }
    forall n | n != o.name && n != a ensures MapAgree(d3.objects, doc.objects, n) {
      assert MapAgree(d3.objects, d2.objects, n) && MapAgree(d2.objects, d1.objects, n)
          && MapAgree(d1.objects, doc.objects, n);
    }
  }

  /** A `Fem::` object created without an analysis is coerced and attached
      to nothing. */
  lemma FemWithoutAnalysisNotAttached(host: Host, g: Gui, docName: string, req: ObjectRequest)
    requires docName in g.docs && StartsWith(req.typeId, "Fem::") && !Truthy(req.analysis)
    requires FemMakerFor(host, FemShortName(req.typeId)).Some?
    requires host.create(FemMake(FemMakerFor(host, FemShortName(req.typeId)).value), req.name,
                         g.docs[docName].objects.Keys).Success?
    ensures var keys := g.docs[docName].objects.Keys;
      var o := host.create(FemMake(FemMakerFor(host, FemShortName(req.typeId)).value), req.name, keys).value;
      var r := CreateObjectGui(host, g, docName, req);
      var objs := r.0.docs[docName].objects;
      r.1 == Bool(true) && docName in r.0.docs
      && o.name in objs && objs[o.name] == ApplyProperties(keys + {o.name}, o, req.properties).0
      && forall n :: n != o.name ==> MapAgree(objs, g.docs[docName].objects, n)
  {
    var doc := g.docs[docName];
    var o := host.create(FemMake(FemMakerFor(host, FemShortName(req.typeId)).value), req.name, doc.objects.Keys).value;
    var d1 := Put(doc, o);
    assert d1.objects.Keys == doc.objects.Keys + {o.name};
    var o1 := ApplyProperties(d1.objects.Keys, o, req.properties).0;
    ApplyPropertiesFrame(d1.objects.Keys, o, req.properties);
    assert CreateFem(host, doc, req) == (Put(d1, o1), Bool(true));
  }

  /** A mesh whose `Part` names no object of the document is reported, but
      the mesh it created stays in the document and in the analysis. */
  lemma MeshUnresolvedPart(host: Host, g: Gui, docName: string, req: ObjectRequest, a: string, p: string)
    requires docName in g.docs && req.typeId == "Fem::FemMeshGmsh" && req.analysis == Str(a)
    requires a in g.docs[docName].objects && a != ""
    requires host.create(MeshGmsh, req.name, g.docs[docName].objects.Keys).Success?
    requires host.create(MeshGmsh, req.name, g.docs[docName].objects.Keys).value.name !in g.docs[docName].objects
    requires Lookup(req.properties, "Part") == Some(Str(p)) && p !in g.docs[docName].objects
    requires p != host.create(MeshGmsh, req.name, g.docs[docName].objects.Keys).value.name
    ensures var m := host.create(MeshGmsh, req.name, g.docs[docName].objects.Keys).value;
      var r := CreateObjectGui(host, g, docName, req);
      r.1 == Str("Referenced object '" + p + "' not found.")
      && docName in r.0.docs && m.name in r.0.docs[docName].objects && r.0.docs[docName].objects[m.name] == m
      && a in r.0.docs[docName].objects
      && r.0.docs[docName].objects[a].group == g.docs[docName].objects[a].group + [m.name]
  {
    var doc := g.docs[docName];
    var m := host.create(MeshGmsh, req.name, doc.objects.Keys).value;
    assert Truthy(req.analysis);
    var d0 := Put(doc, m);
    assert d0.objects[a] == doc.objects[a] by { assert MapAgree(d0.objects, doc.objects, a); }
    var d1 := Attach(d0, a, m.name);
    assert p !in d1.objects by { assert MapAgree(d1.objects, d0.objects, p) && MapAgree(d0.objects, doc.objects, p); }
    assert HasKey(req.properties, "Part");
    assert CreateMesh(host, doc, req) == (d1, Str("Referenced object '" + p + "' not found."));
    assert d1.objects[m.name] == m by { assert MapAgree(d1.objects, d0.objects, m.name); }
  }

  /** A mesh whose `Part` resolves: it links that object, takes the other
      parameters it has, and is reported by what mesh generation raises,
      True when nothing; it is in the document and in the analysis either
      way. */
  lemma MeshCreated(host: Host, g: Gui, docName: string, req: ObjectRequest, a: string, p: string)
    requires docName in g.docs && req.typeId == "Fem::FemMeshGmsh" && req.analysis == Str(a)
    requires a in g.docs[docName].objects && a != ""
    requires host.create(MeshGmsh, req.name, g.docs[docName].objects.Keys).Success?
    requires host.create(MeshGmsh, req.name, g.docs[docName].objects.Keys).value.name !in g.docs[docName].objects
    requires Lookup(req.properties, "Part") == Some(Str(p)) && p in g.docs[docName].objects
    ensures var m := host.create(MeshGmsh, req.name, g.docs[docName].objects.Keys).value;
      var m2 := AssignExisting(Set(m, "Part", Link(p)), RemoveKey(req.properties, "Part"));
      var r := CreateObjectGui(host, g, docName, req);
      docName in r.0.docs && m.name in r.0.docs[docName].objects && r.0.docs[docName].objects[m.name] == m2
      && a in r.0.docs[docName].objects
      && r.0.docs[docName].objects[a].group == g.docs[docName].objects[a].group + [m.name]
      && (r.1 == Bool(true) <==> host.meshError(m2).None?)
      && (host.meshError(m2).Some? ==> r.1 == Str(host.meshError(m2).value))
  {
    var doc := g.docs[docName];
    var m := host.create(MeshGmsh, req.name, doc.objects.Keys).value;
    assert Truthy(req.analysis);
    var d0 := Put(doc, m);
    assert d0.objects[a] == doc.objects[a] by { assert MapAgree(d0.objects, doc.objects, a); }
    var d1 := Attach(d0, a, m.name);
    assert p in d0.objects by { assert MapAgree(d0.objects, doc.objects, p); }
    assert p in d1.objects by { if p != a { assert MapAgree(d1.objects, d0.objects, p); } }
    assert HasKey(req.properties, "Part");
    assert d1.objects[m.name] == m by { assert MapAgree(d1.objects, d0.objects, m.name); }
    var m2 := AssignExisting(Set(m, "Part", Link(p)), RemoveKey(req.properties, "Part"));
    AssignExistingSetsOnlyDeclared(Set(m, "Part", Link(p)), RemoveKey(req.properties, "Part"), "Part");
    var d2 := Put(d1, m2);
    assert d2.objects[a] == d1.objects[a] by { assert MapAgree(d2.objects, d1.objects, a); }
  }

  /** An edit of an existing object that does not go through `References`
      runs the coercion over all the keys on that object; the other objects,
      the other documents and the view are as before. */
  lemma EditWithoutReferences(host: Host, g: Gui, docName: string, name: string, props: seq<(string, Value)>)
    requires docName in g.docs && name in g.docs[docName].objects
    requires !("References" in g.docs[docName].objects[name].declared && HasKey(props, "References"))
    ensures var doc := g.docs[docName];
      var r := EditObjectGui(host, g, docName, name, props);
      r.1 == Bool(true) && r.0.view == g.view && docName in r.0.docs
      && r.0.docs[docName].objects == doc.objects[name := ApplyProperties(doc.objects.Keys, doc.objects[name], props).0]
      && forall d :: d != docName ==> MapAgree(r.0.docs, g.docs, d)
  {
  }

  /** `edit_object` applies only the `Properties` entry of what it is sent:
      a flat property mapping edits nothing, and the edit is still reported
      as a success. */
  lemma FlatEditChangesNothing(host: Host, g: Gui, docName: string, name: string, flat: seq<(string, Value)>)
    requires docName in g.docs && name in g.docs[docName].objects
    requires !HasKey(flat, "Properties")
    ensures EditProperties(Dict(flat)) == Success([])
    ensures EditObjectGui(host, g, docName, name, []) == (g, Bool(true))
  {
    var doc := g.docs[docName];
    assert doc.objects[name := doc.objects[name]] == doc.objects;
    assert g.docs[docName := Doc(doc.objects)] == g.docs;
  }
}
