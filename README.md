# FreeCAD MCP bridge, modelled in Dafny

FreeCAD MCP lets an AI agent drive the FreeCAD CAD program. It has two halves:

- the **addon** runs inside FreeCAD (`addon/FreeCADMCP/rpc_server/rpc_server.py`). It is an XML-RPC server whose methods are run on the server thread. Every method that touches a document wraps its work in a closure and puts it on a request queue. A timer on the GUI thread drains that queue and puts each result on a response queue. The method takes the result and wraps it in a `{"success": ...}` envelope;
- the **adapter** runs beside the agent (`src/freecad_mcp/server.py`). It keeps one cached connection to the addon and turns each envelope into the text and image items of a tool reply.

The project models:

- the GUI task bridge and its drain tick (`Bridge`);
- the property coercion `set_object_property` (`Coercion`);
- the GUI closures, the envelopes of `FreeCADRPC` and the op-code parse of node creation (`Dispatcher`);
- the start/stop lifecycle of the server (`Lifecycle`);
- the adapter: the connection cache, the screenshot rules, tool replies, the title literal and status line of node creation (`Adapter`).

`Values` models the Python values that cross XML-RPC: None, booleans, numbers, strings, lists, and dicts as ordered entry lists. It also models the dict operations the source uses: `in`, `get`, `[]`, `del` and truthiness. `Text` models the string operations the source uses: `split`, `join`, `rsplit(.., 1)`, `replace` and `strip`.

Whatever FreeCAD itself decides is a parameter, the `Host` value in `Dispatcher`:

- the name a new document gets;
- the object a constructor creates, or the text of what it raises;
- the `make…` functions `ObjectsFem` has;
- exception texts;
- mesh generation, the parts library and `exec`, each with the GUI state it leaves;
- the image a view renders.

The GUI state `Gui` (open documents and the active view) is owned by the bridge. Each RPC method of the `FreeCadRpc` class submits one `Task`, and `RunTask` runs it on that state. Proving `Submit` against `Bridge.Tick` is what shows each caller gets its own closure's result.

`_save_active_screenshot` accepts nine view orientations (Isometric, Front, Top, Right, Back, Left, Bottom, Dimetric and Trimetric; lines 591-608), and so does `Dispatcher.ViewNames`.

## Model

| member | source | states |
|---|---|---|
| Bridge.Drain | addon/FreeCADMCP/rpc_server/rpc_server.py:29-34 | draining yields at most one result per task, and never a None |
| Bridge.ReplyOf | addon/FreeCADMCP/rpc_server/rpc_server.py:33-34 | a None result puts nothing on the response queue; any other result puts exactly itself |
| Bridge.RanAll | addon/FreeCADMCP/rpc_server/rpc_server.py:30-32 | the GUI trace of a drain is one `Ran` event per task, in queue order |
| Bridge.RanAllSnoc | addon/FreeCADMCP/rpc_server/rpc_server.py:30-32 | running one more task appends exactly its event to the trace |
| Bridge.DrainSnoc | addon/FreeCADMCP/rpc_server/rpc_server.py:30-34 | draining `ts + [t]` is draining `ts`, then running `t` on the state the others left and queueing its result unless it is None |
| Bridge.RepliesInSubmissionOrder | addon/FreeCADMCP/rpc_server/rpc_server.py:29-34 | when no task returns None, the response queue gets exactly one result per task, and the i-th result is the i-th task's result |
| Bridge.NoneNeverReplies | addon/FreeCADMCP/rpc_server/rpc_server.py:33-34 | a task adds nothing to the response queue exactly when its closure returns None |
| Bridge.Bridge.constructor | addon/FreeCADMCP/rpc_server/rpc_server.py:25-26 | both queues start empty, no timer is pending and nothing has run |
| Bridge.Bridge.ArmTimer | addon/FreeCADMCP/rpc_server/rpc_server.py:660 | one more single-shot drain timer is pending; queues, GUI state and trace unchanged |
| Bridge.Bridge.Put | addon/FreeCADMCP/rpc_server/rpc_server.py:131 | the task is appended to the request queue and nothing else changes |
| Bridge.Bridge.Get | addon/FreeCADMCP/rpc_server/rpc_server.py:132 | the oldest result is removed from the response queue and returned; nothing else changes |
| Bridge.Bridge.Tick | addon/FreeCADMCP/rpc_server/rpc_server.py:29-35 | the request queue is emptied in FIFO order. The GUI state and appended results are those of `Drain`. The trace gains one `Ran` per task and then one re-arm. The number of pending timers is unchanged |
| Bridge.Bridge.SubmitAndWait | addon/FreeCADMCP/rpc_server/rpc_server.py:131-132 | one call through an idle bridge returns exactly its own closure's result, and leaves the GUI state the closure produced with both queues empty |
| Bridge.Bridge.PutAll | addon/FreeCADMCP/rpc_server/rpc_server.py:131 | several puts append the tasks in order |
| Bridge.Bridge.GetAll | addon/FreeCADMCP/rpc_server/rpc_server.py:132 | n gets return the n oldest results in order and leave the rest |
| Bridge.Bridge.ServeTogether | addon/FreeCADMCP/rpc_server/rpc_server.py:29-35 | callers that all submit before one tick each receive their own task's result, in submission order, and the queues end empty |
| Values.Lookup | addon/FreeCADMCP/rpc_server/rpc_server.py:53-56 | a key is found exactly when the mapping has it, and the value found is one of the mapping's entries |
| Values.RemoveKey | addon/FreeCADMCP/rpc_server/rpc_server.py:555 | `del d[k]`: the key is gone and every other key looks up as before |
| Values.Subscript | src/freecad_mcp/server.py:182 | `res[key]` on a dict with the key gives its value; a missing key raises KeyError with the quoted key; a value that is not a dict raises |
| Text.Split | addon/FreeCADMCP/rpc_server/rpc_server.py:424 | `split` always gives at least one piece |
| Text.JoinSplit | addon/FreeCADMCP/rpc_server/rpc_server.py:424 | joining the pieces of a split with its separator gives back the string |
| Text.SplitWithoutSeparator | addon/FreeCADMCP/rpc_server/rpc_server.py:424 | a string without the separator splits into itself alone |
| Text.SplitAtFirst | addon/FreeCADMCP/rpc_server/rpc_server.py:424 | splitting on a character cuts at its first occurrence |
| Text.SplitPieceHasNoSeparator | addon/FreeCADMCP/rpc_server/rpc_server.py:424 | no piece of a split on a character contains that character |
| Text.LastIndexOf | addon/FreeCADMCP/rpc_server/rpc_server.py:425 | finds the last occurrence of a character, or reports that there is none |
| Text.RSplitOnce | addon/FreeCADMCP/rpc_server/rpc_server.py:425 | `rsplit(c, 1)` with two parts exists exactly when `c` occurs; the parts rejoin around `c` into the string, and the right part has no `c` |
| Text.RSplitOnceJoin | addon/FreeCADMCP/rpc_server/rpc_server.py:425 | `a + c + b` with `c` not in `b` rsplits into `a` and `b` |
| Text.LastPieceIsSuffix | src/freecad_mcp/server.py:632-637 | the last piece of a split on a character is a suffix without that character, preceded by it unless it is the whole string |
| Text.FirstPiece | addon/FreeCADMCP/rpc_server/rpc_server.py:500 | the first piece of a split is a prefix of the string that contains no occurrence of the separator, and is followed by one unless it is the whole string |
| Text.ReplaceCharStep | src/freecad_mcp/server.py:530 | replacing a character works on the first character and then the rest |
| Text.ReplaceConcat | src/freecad_mcp/server.py:530 | replacing a character distributes over concatenation |
| Text.Strip | src/freecad_mcp/server.py:631 | `strip()` gives the slice `s[i..j]` of its input such that everything cut off before `i` and from `j` on is whitespace in the sense of Python's `str.isspace` (the ASCII separators and controls, NEL, no-break space and the Unicode spaces), and the slice neither starts nor ends with whitespace |
| Coercion.Set | addon/FreeCADMCP/rpc_server/rpc_server.py:75 | `setattr(obj, prop, v)` sets that property and leaves every other property, the view object and the object's identity unchanged |
| Coercion.SetView | addon/FreeCADMCP/rpc_server/rpc_server.py:113-115 | `setattr(obj.ViewObject, k, v)` sets that view attribute only |
| Coercion.Floats | addon/FreeCADMCP/rpc_server/rpc_server.py:108 | the converted components are the `float` of the first n items, in order |
| Coercion.FloatOf | addon/FreeCADMCP/rpc_server/rpc_server.py:108 | `float` accepts exactly numbers and booleans. A number converts to itself, True to 1.0 and False to 0.0 |
| Coercion.FloatsSucceed | addon/FreeCADMCP/rpc_server/rpc_server.py:108 | the conversion succeeds exactly when every one of the n components exists and converts |
| Coercion.ColorOf | addon/FreeCADMCP/rpc_server/rpc_server.py:108 | a colour list gives four floats exactly when it has at least four convertible leading items; extra items are ignored |
| Coercion.ViewColorOf | addon/FreeCADMCP/rpc_server/rpc_server.py:113 | a view colour gives four floats exactly when it is a list with at least four convertible leading items, and they are those items converted. A value that is not a list raises as not indexable |
| Coercion.ResolvedRefs | addon/FreeCADMCP/rpc_server/rpc_server.py:94-102 | the (object, face) list succeeds exactly when every item resolves, and holds one resolved pair per item in order; otherwise the fault is that of the first item that fails |
| Coercion.ResolvedPair | addon/FreeCADMCP/rpc_server/rpc_server.py:96-99 | the object of a resolved (object, face) pair is a name of the document |
| Coercion.FirstFaultDecides | addon/FreeCADMCP/rpc_server/rpc_server.py:96-101 | the first failing item decides the fault of the whole list |
| Coercion.ResolveReferences | addon/FreeCADMCP/rpc_server/rpc_server.py:95-102 | the loop that resolves the references returns exactly `ResolvedRefs` |
| Coercion.ApplyViewEntries | addon/FreeCADMCP/rpc_server/rpc_server.py:110-115 | a `ViewObject` mapping touches only the view object: identity and properties unchanged |
| Coercion.ViewEntriesSnoc | addon/FreeCADMCP/rpc_server/rpc_server.py:111-115 | view attributes are set one at a time, in the order of the mapping |
| Coercion.ViewStopsAtFault | addon/FreeCADMCP/rpc_server/rpc_server.py:111-115 | once a view attribute raises, no later attribute is set |
| Coercion.ApplyKey | addon/FreeCADMCP/rpc_server/rpc_server.py:50-121 | one key changes at most the property it names, and the view object only for `ShapeColor` or `ViewObject`. A key that raises changes nothing, except a `ViewObject` mapping, which keeps what it set before the fault |
| Coercion.Fold | addon/FreeCADMCP/rpc_server/rpc_server.py:49-121 | at most one log entry per key |
| Coercion.FoldConcat | addon/FreeCADMCP/rpc_server/rpc_server.py:49 | the keys are handled strictly in order: `a + b` is `a`, then `b` from `a`'s result, and the logs concatenate |
| Coercion.ApplyProperties | addon/FreeCADMCP/rpc_server/rpc_server.py:46-121 | at most one logged fault per key |
| Coercion.ApplyPropertiesFrame | addon/FreeCADMCP/rpc_server/rpc_server.py:46-121 | the coercion never changes the object's name, type, declared properties or group. A property no key names keeps its value. The view object changes only when `ShapeColor` or `ViewObject` is sent |
| Coercion.ApplyConcat | addon/FreeCADMCP/rpc_server/rpc_server.py:49 | applying `a + b` is applying `a`, then `b`, and the logs concatenate |
| Coercion.FailingKeyIsSkipped | addon/FreeCADMCP/rpc_server/rpc_server.py:49-121 | a key that raises is logged and skipped, and the keys after it are applied as if it had not been sent |
| Coercion.SetObjectProperty | addon/FreeCADMCP/rpc_server/rpc_server.py:46-121 | the loop over the keys computes exactly `ApplyProperties` |
| Coercion.AssignProperty | addon/FreeCADMCP/rpc_server/rpc_server.py:50-121 | the chain of branches for one key computes exactly `ApplyKey` |
| Coercion.PlacementOnlyWhenDeclared | addon/FreeCADMCP/rpc_server/rpc_server.py:51-105 | a `Placement` mapping becomes a placement only when the object declares `Placement`. A bad sub-block raises and changes nothing. An undeclared `Placement` is assigned as sent |
| Coercion.VectorOf | addon/FreeCADMCP/rpc_server/rpc_server.py:80-82 | each coordinate of the vector is the mapping's value for `x`, `y` or `z`, and 0 when that key is missing |
| Coercion.PlacementOf | addon/FreeCADMCP/rpc_server/rpc_server.py:52-75 | a placement is built only when the position block is a mapping, and its position is that block's vector. A position block that is not a mapping raises first, then a rotation block that is not a mapping. With no `Rotation` key the axis is (0, 0, 1) and the angle 0 |
| Coercion.BaseWinsOverPosition | addon/FreeCADMCP/rpc_server/rpc_server.py:53-56 | when `Base` is present, `Position` is ignored |
| Coercion.PositionUsedWithoutBase | addon/FreeCADMCP/rpc_server/rpc_server.py:53-74 | without `Base`, the `Position` block gives the position, whatever the rotation block holds; the placement is built exactly when the rotation block and its axis are mappings |
| Coercion.PlacementFromBlocks | addon/FreeCADMCP/rpc_server/rpc_server.py:52-75 | for any position, rotation and axis mappings, the placement is the vector of the position block (missing coordinates 0), the axis of the axis block with x and y defaulting to 0 and z to 1, and the rotation block's angle defaulting to 0 |
| Coercion.PlacementRaisesOnFirstNonMapping | addon/FreeCADMCP/rpc_server/rpc_server.py:53-74 | the first of the position, rotation and axis blocks that is not a mapping, in that order, is the fault |
| Coercion.PlacementDefaults | addon/FreeCADMCP/rpc_server/rpc_server.py:57-72 | no position and no rotation give position (0,0,0), axis (0,0,1) and angle 0 |
| Coercion.MissingCoordinatesAreZero | addon/FreeCADMCP/rpc_server/rpc_server.py:62-64 | each missing coordinate is 0 on its own; each present one is taken as sent |
| Coercion.AxisDefaultsIndependently | addon/FreeCADMCP/rpc_server/rpc_server.py:59-73 | for any rotation block holding an axis mapping, each axis component given is taken as sent, a missing x or y is 0 and a missing z is 1, and a missing angle is 0 |
| Coercion.PlacementComponentwise | addon/FreeCADMCP/rpc_server/rpc_server.py:53-74 | a `Base` block and a `Rotation` block with `Axis` and `Angle` are taken component by component |
| Coercion.VectorFromMapping | addon/FreeCADMCP/rpc_server/rpc_server.py:77-83 | any mapping sent to a declared vector property becomes the vector of its `x`, `y` and `z` entries, missing components 0, and nothing is logged |
| Coercion.ReferenceByName | addon/FreeCADMCP/rpc_server/rpc_server.py:85-92 | `Base`/`Tool`/`Source`/`Profile` given a name links the object when the document has it; otherwise it raises "Referenced object … not found." and changes nothing |
| Coercion.ReferencesAllOrNothing | addon/FreeCADMCP/rpc_server/rpc_server.py:94-102 | one unresolved item leaves `References` untouched; otherwise it holds one resolved pair per item, in order |
| Coercion.MappingReferenceUnpacksKeys | addon/FreeCADMCP/rpc_server/rpc_server.py:94-102 | a `References` item written as a mapping with `object_name` and `face` keys unpacks into those two keys. Unless the document has an object named `object_name`, the key raises that name as not found and the object is unchanged |
| Coercion.ShapeColorRoute | addon/FreeCADMCP/rpc_server/rpc_server.py:51-108 | a list sent as an undeclared `ShapeColor` goes to the view object as its first four components as floats and leaves the properties alone; a list too short or with a component `float` refuses raises and changes nothing; a declared `ShapeColor` is assigned as sent |
| Coercion.ViewObjectStopsMidMapping | addon/FreeCADMCP/rpc_server/rpc_server.py:110-121 | a `ViewObject` entry that raises keeps the attributes set before it, never sets those after it, and logs its fault |
| Dispatcher.Put | addon/FreeCADMCP/rpc_server/rpc_server.py:515 | the new object is stored under its own name; every other name keeps its object |
| Dispatcher.Attach | addon/FreeCADMCP/rpc_server/rpc_server.py:512-513 | `analysis.addObject` appends the member to the analysis group and changes no other object |
| Dispatcher.AnalysisOf | addon/FreeCADMCP/rpc_server/rpc_server.py:474 | `getattr(doc, analysis)` succeeds exactly when the analysis is a name the document has, and gives that name |
| Dispatcher.CreateDocumentGui | addon/FreeCADMCP/rpc_server/rpc_server.py:462-466 | a new, empty document appears under the name FreeCAD chooses; every other document and the view are unchanged; the result is always True |
| Dispatcher.CreateGeneric | addon/FreeCADMCP/rpc_server/rpc_server.py:514-524 | the generic path returns True or an error text; what it stores is stated by `GenericCreateCoerces` and `GenericCreateFails` |
| Dispatcher.FemMakerFor | addon/FreeCADMCP/rpc_server/rpc_server.py:496-504 | `MaterialCommon` and `AnalysisPython` use their overrides. Any other short name uses `make<short>`, found exactly when `ObjectsFem` has it |
| Dispatcher.FemSplit | addon/FreeCADMCP/rpc_server/rpc_server.py:500 | `"Fem::" + rest` splits into `Fem` and the pieces of `rest` |
| Dispatcher.ShortNameOf | addon/FreeCADMCP/rpc_server/rpc_server.py:500 | the short name of `Fem::` followed by a name without `::` is that name |
| Dispatcher.FemShortName | addon/FreeCADMCP/rpc_server/rpc_server.py:500 | the short name is the text after `Fem::` up to the next `::`, or to the end when there is none |
| Dispatcher.AnalysisPythonShortName | addon/FreeCADMCP/rpc_server/rpc_server.py:498-500 | `Fem::AnalysisPython` takes the `Fem::` path with short name `AnalysisPython` |
| Dispatcher.CreateFem | addon/FreeCADMCP/rpc_server/rpc_server.py:495-513 | the `Fem::` path returns True or an error text; what it stores is stated by `FemWithoutMakerFails`, `FemAttachedToAnalysis`, `FemWithoutAnalysisNotAttached` and `AnalysisContainerNotAttached` |
| Dispatcher.AnalysisCreatedUnattached | addon/FreeCADMCP/rpc_server/rpc_server.py:504-513 | the analysis container is created, coerced and stored, is attached to nothing, and the result is True |
| Dispatcher.AssignExistingSetsOnlyDeclared | addon/FreeCADMCP/rpc_server/rpc_server.py:485-487 | a mesh parameter the mesh lacks is ignored. A parameter it has holds one of the values sent for it. Nothing else changes |
| Dispatcher.AssignExisting | addon/FreeCADMCP/rpc_server/rpc_server.py:485-487 | the mesh keeps its name, type, declared set, group and view, and every property it does not declare |
| Dispatcher.ExistingFoldFrame | addon/FreeCADMCP/rpc_server/rpc_server.py:485-487 | the same frame for the loop over the parameters, one parameter at a time |
| Dispatcher.SetExistingAttributes | addon/FreeCADMCP/rpc_server/rpc_server.py:485-487 | the loop over the mesh parameters computes exactly `AssignExisting` |
| Dispatcher.CreateMesh | addon/FreeCADMCP/rpc_server/rpc_server.py:472-494 | the mesh path returns True or an error text; what it stores is stated by `MeshWithoutPartLeavesMesh`, `MeshUnresolvedPart` and `MeshCreated` |
| Dispatcher.CreateObjectGui | addon/FreeCADMCP/rpc_server/rpc_server.py:468-527 | the result is True or an error text. A missing document gives "Document '…' not found." and changes nothing. Other documents and the view never change |
| Dispatcher.GenericCreateCoerces | addon/FreeCADMCP/rpc_server/rpc_server.py:514-522 | a created generic object is stored with the coercion applied using the document's names, the new one included; every other object is unchanged and the result is True |
| Dispatcher.GenericCreateFails | addon/FreeCADMCP/rpc_server/rpc_server.py:514-527 | a generic constructor that raises is reported with its own text and the GUI state is as before |
| Dispatcher.FemWithoutMakerFails | addon/FreeCADMCP/rpc_server/rpc_server.py:498-511 | a `Fem::` type with no constructor is reported as "No creation method 'make<short>' found in ObjectsFem." and the GUI state is as before |
| Dispatcher.FemAttachedToAnalysis | addon/FreeCADMCP/rpc_server/rpc_server.py:495-513 | a `Fem::` object other than the analysis container, created for an analysis of the document, is stored with the coercion applied and appended to that analysis' group; no other object changes and the result is True |
| Dispatcher.FemWithoutAnalysisNotAttached | addon/FreeCADMCP/rpc_server/rpc_server.py:495-513 | a `Fem::` object created without an analysis is stored with the coercion applied, no other object changes, and the result is True |
| Dispatcher.MeshWithoutPartLeavesMesh | addon/FreeCADMCP/rpc_server/rpc_server.py:474-483 | a mesh request without `Part` is refused with "'Part' property not found in properties.", yet the mesh stays in the document and in the analysis group |
| Dispatcher.MeshUnresolvedPart | addon/FreeCADMCP/rpc_server/rpc_server.py:472-481 | a mesh whose `Part` names no object is refused with "Referenced object '<Part>' not found.", yet the mesh stays, unchanged, in the document and in the analysis group |
| Dispatcher.MeshCreated | addon/FreeCADMCP/rpc_server/rpc_server.py:472-494 | a mesh whose `Part` resolves links that object, takes the other parameters it has, sits in the document and the analysis group, and the result is True exactly when mesh generation raises nothing, else its text |
| Dispatcher.AnalysisContainerNotAttached | addon/FreeCADMCP/rpc_server/rpc_server.py:512-513 | creating `Fem::AnalysisPython` succeeds and changes no object but the new one, even when an analysis is named |
| Dispatcher.RefsOf | addon/FreeCADMCP/rpc_server/rpc_server.py:544 | a value that is not a list, string or mapping raises as not iterable. A list resolves exactly when every item resolves. Every resolved pair names an object of the document |
| Dispatcher.EditObject | addon/FreeCADMCP/rpc_server/rpc_server.py:541-558 | the edit fails exactly when the object has `References`, the request sends them, and they do not resolve; the text is that fault's. A successful edit keeps the object's name, type, declared set and group, and its `References` then hold exactly the resolved pairs |
| Dispatcher.EditObjectGui | addon/FreeCADMCP/rpc_server/rpc_server.py:529-561 | the result is True or an error text. A missing document or object is reported in its fixed text. Any failure leaves the GUI state unchanged. Success keeps the edited object and changes no other object and no other document. The view never changes |
| Dispatcher.EditReferencesFirst | addon/FreeCADMCP/rpc_server/rpc_server.py:542-556 | references that do not all resolve change nothing and report the fault. Otherwise `References` is set first and the coercion runs on the other keys only |
| Dispatcher.EditedReferencesKept | addon/FreeCADMCP/rpc_server/rpc_server.py:550-556 | after such an edit `References` holds exactly the resolved pairs |
| Dispatcher.EditWithoutReferences | addon/FreeCADMCP/rpc_server/rpc_server.py:541-558 | an edit of an existing object not going through `References` succeeds; the object becomes the coercion of all the keys over it, and the other objects, the other documents and the view are as before |
| Dispatcher.FlatEditChangesNothing | addon/FreeCADMCP/rpc_server/rpc_server.py:152-156 | a property mapping without a `Properties` entry is read as no properties. The edit then leaves the GUI state as it was and still reports True |
| Dispatcher.DeleteObjectGui | addon/FreeCADMCP/rpc_server/rpc_server.py:563-575 | True exactly when the document and the object exist. Then exactly that object is removed and nothing else changes. Otherwise the state is unchanged and the result is an error text |
| Dispatcher.InsertPartGui | addon/FreeCADMCP/rpc_server/rpc_server.py:577-582 | True exactly when the library insert raises nothing, otherwise its error text; the GUI state is whatever the insert left |
| Dispatcher.ExecuteCodeGui | addon/FreeCADMCP/rpc_server/rpc_server.py:174-184 | True exactly when the code raises nothing, otherwise "Error executing Python code: …"; the GUI state is whatever the code left, including what it did before raising |
| Dispatcher.InsertPartReply | addon/FreeCADMCP/rpc_server/rpc_server.py:210-216 | the insert reply succeeds exactly when the insert raises nothing, and then carries "Part inserted from library."; otherwise the error is the raised text |
| Dispatcher.ExecuteCodeReply | addon/FreeCADMCP/rpc_server/rpc_server.py:172-194 | the code reply succeeds exactly when the code raises nothing, and then its message carries what the code printed; otherwise the error names the exception |
| Dispatcher.CheckViewGui | addon/FreeCADMCP/rpc_server/rpc_server.py:231-244 | True exactly when there is an active document whose active view can save images |
| Dispatcher.SaveActiveScreenshotGui | addon/FreeCADMCP/rpc_server/rpc_server.py:584-615 | True exactly for a view that saves images and one of the nine view names. Then the view is oriented and the image saved. Otherwise nothing changes and the result is the error text of each case: no active document, a missing view or one that cannot save images, an unknown name |
| Dispatcher.DefaultScreenshotTurnsIsometric | addon/FreeCADMCP/rpc_server/rpc_server.py:584-592 | with no orientation named, a view that saves images always succeeds and is left turned to `Isometric`, the image path added to what it saved |
| Dispatcher.ParseOpCode | addon/FreeCADMCP/rpc_server/rpc_server.py:424-425 | a parsed module has no quote, and a parsed class has neither a quote nor a dot |
| Dispatcher.OpCodeRoundTrip | addon/FreeCADMCP/rpc_server/rpc_server.py:421-425 | the printed form `<class 'm.c'>` of a node class parses back into module `m` and class `c` |
| Dispatcher.NodeParseFailure | addon/FreeCADMCP/rpc_server/rpc_server.py:456-460 | an op-code that does not parse gives success False and "Error creating node: " followed by the error |
| Dispatcher.EnvelopeSuccessIffTrue | addon/FreeCADMCP/rpc_server/rpc_server.py:133-136 | success exactly when the result is the value True. Then the payload is present and there is no error. Any other result, a truthy string included, is returned verbatim as the error |
| Dispatcher.Envelope | addon/FreeCADMCP/rpc_server/rpc_server.py:133-136 | the reply's `success` is True exactly when the result is the value True (the same shape at lines 147-150, 159-162, 167-170, 188-194 and 213-216). On success the payload is under its key; otherwise the result is under `error` |
| Dispatcher.ParseObjectRequest | addon/FreeCADMCP/rpc_server/rpc_server.py:139-144 | a missing `Type` raises KeyError `'Type'`. Missing `Name`, `Properties` and `Analysis` default to `New_Object`, `{}` and None |
| Dispatcher.EditProperties | addon/FreeCADMCP/rpc_server/rpc_server.py:153-156 | only the `Properties` sub-mapping is passed on, `{}` when it is missing |
| Dispatcher.RunTask | addon/FreeCADMCP/rpc_server/rpc_server.py:130-259 | every closure the dispatcher submits, when it returns, returns a value other than None, so the drain puts a reply for its caller |
| Dispatcher.FreeCadRpc.constructor | addon/FreeCADMCP/rpc_server/rpc_server.py:651 | the RPC instance is bound to its bridge and host |
| Dispatcher.FreeCadRpc.Submit | addon/FreeCADMCP/rpc_server/rpc_server.py:131-132 | put, one tick, get: the caller receives its own closure's result and the GUI state is the closure's |
| Dispatcher.FreeCadRpc.CreateDocument | addon/FreeCADMCP/rpc_server/rpc_server.py:130-136 | the name defaults to `New_Document`; the GUI state is that of `_create_document_gui`; the reply is its envelope under `document_name` with the requested name |
| Dispatcher.FreeCadRpc.CreateObject | addon/FreeCADMCP/rpc_server/rpc_server.py:138-150 | a request that does not parse raises before anything is submitted. Otherwise the GUI state is that of `_create_object_gui`, and the reply is its envelope with the requested name |
| Dispatcher.FreeCadRpc.EditObject | addon/FreeCADMCP/rpc_server/rpc_server.py:152-162 | a malformed property argument raises before anything is submitted. Otherwise the GUI state is that of `_edit_object_gui`, and the reply is its envelope |
| Dispatcher.FreeCadRpc.DeleteObject | addon/FreeCADMCP/rpc_server/rpc_server.py:164-170 | the GUI state is that of `_delete_object_gui` and the reply is its envelope |
| Dispatcher.FreeCadRpc.InsertPartFromLibrary | addon/FreeCADMCP/rpc_server/rpc_server.py:210-216 | the GUI state is what the insert left; the reply is the envelope of the insert with the fixed success message |
| Dispatcher.FreeCadRpc.ExecuteCode | addon/FreeCADMCP/rpc_server/rpc_server.py:172-194 | the GUI state is what the code left; the reply is the envelope of the run, and its success message carries what the code printed |
| Dispatcher.FreeCadRpc.GetActiveScreenshot | addon/FreeCADMCP/rpc_server/rpc_server.py:224-273 | the view name defaults to `Isometric`. An image exactly when the view can save images and the view name is one of the nine; it is the view rendered in that orientation, and the view is left turned to it with the image saved. Without an image the GUI is unchanged; the documents are unchanged either way |
| Lifecycle.NatToString | addon/FreeCADMCP/rpc_server/rpc_server.py:662 | `str(port)` is a non-empty string of decimal digits without a leading zero |
| Lifecycle.Digit | addon/FreeCADMCP/rpc_server/rpc_server.py:662 | one decimal digit spells its value |
| Lifecycle.NatToStringRoundTrip | addon/FreeCADMCP/rpc_server/rpc_server.py:662 | the port printed in the start message reads back as the port |
| Lifecycle.StartedMessage | addon/FreeCADMCP/rpc_server/rpc_server.py:662 | the message starts with `RPC Server started at ` and the host and a colon, then decimal digits that read back as the port, then a full stop |
| Lifecycle.RpcServer.constructor | addon/FreeCADMCP/rpc_server/rpc_server.py:22 | no server instance at first |
| Lifecycle.RpcServer.Start | addon/FreeCADMCP/rpc_server/rpc_server.py:642-662 | host and port default to `localhost` and 9875. A running server gives "RPC Server already running." and nothing changes. A bind failure raises and nothing changes. Otherwise the server serves at the address, one more drain timer is armed, and the message names host and port |
| Lifecycle.RpcServer.Stop | addon/FreeCADMCP/rpc_server/rpc_server.py:665-676 | the instance is gone afterwards; the message says whether it was running |
| Lifecycle.StartStopStart | addon/FreeCADMCP/rpc_server/rpc_server.py:642-676 | start, stop, start serves again, but leaves two drain timers armed where one would do |
| Adapter.Connect | src/freecad_mcp/server.py:132-143 | a cached connection is reused without a ping. A truthy ping caches the local connection. A falsy ping clears the cache and raises the fixed text. A ping that raises leaves the unchecked connection cached |
| Adapter.ConnectionIsReused | src/freecad_mcp/server.py:135-143 | after a successful or raising first ping, every later call gets the cached connection whatever a ping would say |
| Adapter.WithScreenshot | src/freecad_mcp/server.py:147-158 | text-only mode leaves the reply unchanged. Otherwise exactly one item is appended: the image when there is one, else the fixed note |
| Adapter.Response.constructor | src/freecad_mcp/server.py:328-330 | the reply starts with the given items |
| Adapter.Response.AddScreenshotIfAvailable | src/freecad_mcp/server.py:147-158 | appending in place gives exactly `WithScreenshot` of the old items |
| Adapter.ClientScreenshot | src/freecad_mcp/server.py:45-79 | the orientation asked for defaults to `Isometric`. An image only when the fetch for that orientation returned it. A failed or unsuccessful pre-check, one whose reply is not a mapping, or one whose message is the marker gives None. A successful pre-check without the marker passes the fetch on, and a fetch that raises gives None |
| Adapter.MentionsMarker | src/freecad_mcp/server.py:70 | `in` succeeds exactly on a string, list or mapping and otherwise raises the TypeError text naming the type. The marker string itself mentions the marker, and a list mentions it exactly when it holds the marker string |
| Adapter.ContainsInSuffix | src/freecad_mcp/server.py:70 | text found in the output is found in the output behind the fixed head |
| Adapter.UnsupportedViewGivesNoScreenshot | src/freecad_mcp/server.py:48-72 | against the addon's `execute_code` envelope: a pre-check that fails, or that prints the marker, gives None |
| Adapter.ViewReply | src/freecad_mcp/server.py:466-472 | one item: the image when there is one, otherwise the fixed text (text-only mode is not consulted) |
| Adapter.NodesScreenshotReply | src/freecad_mcp/server.py:488-496 | one item. An empty or missing answer gives the fallback text. An answer with the marker is passed on as text. Anything else is the image |
| Adapter.NodesShotItems | src/freecad_mcp/server.py:651-659 | at most one item. There is none for an empty answer. An answer with the marker is passed on as text. The image comes only outside text-only mode |
| Adapter.ToolReply | src/freecad_mcp/server.py:321-341 | one or two items, text first. An exception gives one failure text. A successful or failed envelope gives its text plus the screenshot rule. A missing `success` is caught as a KeyError. The other envelope tools have the same shape: `create_document` (lines 179-194, with no screenshot), `edit_object` (359-378), `delete_object` (392-411), `execute_code` (424-443) and `insert_part_from_library` (672-691) |
| Adapter.ReplyFollowsEnvelope | src/freecad_mcp/server.py:327-336 | against the addon's envelope: the agent is told of success exactly when the GUI result was True, and is otherwise shown that result as the error |
| Adapter.ObjData | src/freecad_mcp/server.py:323 | four entries, with `Properties` defaulting to `{}` |
| Adapter.ObjDataRoundTrip | src/freecad_mcp/server.py:323 | the request the addon parses from `obj_data` is exactly the name, type, analysis and properties the agent gave |
| Adapter.EscapeTitleAsWritten | src/freecad_mcp/server.py:527-531 | None gives `None`; a title gives a quoted literal |
| Adapter.TitleQuoteBreaksLiteral | src/freecad_mcp/server.py:530-531 | the title `it's` as written does not read back as a literal; corrected it reads back as `it's` |
| Adapter.EscapedItS | src/freecad_mcp/server.py:530 | line 530 turns `it's` into `'it\\'s'` |
| Adapter.EscapeCharsIsReplace | src/freecad_mcp/server.py:530 | the corrected `replace` chain doubles each backslash and escapes each quote, character by character |
| Adapter.ReadEscaped | src/freecad_mcp/server.py:530-531 | the character-wise escape closed by a quote reads back as the title |
| Adapter.EscapeTitle | src/freecad_mcp/server.py:527-531 | None gives `None`; a one-line title gives a literal that reads back as the title |
| Adapter.StatusLineAsWrittenIsWholeOutput | src/freecad_mcp/server.py:632-637 | output without backslashes is not split at all, so the whole log is taken as its last line |
| Adapter.StatusLineAsWritten | src/freecad_mcp/server.py:632-637 | as written (see Findings), the status is a suffix of the output, and the whole output when the three characters backslash, backslash, n do not occur in it |
| Adapter.StatusLine | src/freecad_mcp/server.py:632-637 | the corrected status has no line break, ends the output, and starts right after a line break or at the start |
| Adapter.StatusLineCounterexample | src/freecad_mcp/server.py:632 | on `a`, newline, `b` the status as written is the whole output; corrected it is `b` |
| Adapter.NodeScriptFailureAsWritten | src/freecad_mcp/server.py:649 | the text ends in the literal `{str(e)}` whatever the exception |
| Adapter.NodeScriptFailure | src/freecad_mcp/server.py:649 | the corrected text is the fixed head followed by the exception's text |
| Adapter.ScriptFailureLosesError | src/freecad_mcp/server.py:647-649 | two different exceptions read alike as written and apart once corrected |
| Adapter.WithLog | src/freecad_mcp/server.py:643-645 | the reply begins with its head and ends with the whole log |
| Adapter.MessageText | src/freecad_mcp/server.py:631 | a reply without `message` gives the empty text |
| Adapter.ReportsIssue | src/freecad_mcp/server.py:641 | true exactly when the output contains `Error`, `Warning` or `Critical` anywhere |
| Adapter.IssueSeenAnywhere | src/freecad_mcp/server.py:641 | the whole output is searched: an issue word is reported whatever text surrounds it |
| Adapter.NodeStatusReply | src/freecad_mcp/server.py:639-645 | with the corrected last line `StatusLine` (see Findings): output that reports a created node gives just its last line. Output mentioning Error, Warning or Critical is flagged as issues with the last line and log. Anything else is "attempt finished" with the last line and log |
| Adapter.NodeCreateReply | src/freecad_mcp/server.py:628-659 | the status item (or the failure text for an exception) followed by the nodes screenshot items |
| Adapter.FailedScriptLooksFinished | src/freecad_mcp/server.py:630-645 | a script that fails in the addon comes back without `message`, so the agent is told only that the attempt finished, with an empty line and log |
| Adapter.EmptyOutputReply | src/freecad_mcp/server.py:644-645 | empty output gives the "attempt finished" text with an empty line and log |
| Adapter.Session.constructor | src/freecad_mcp/server.py:129 | no cached connection at first |
| Adapter.Session.GetConnection | src/freecad_mcp/server.py:132-143 | the cache and the result are exactly those of `Connect` |
| Adapter.Session.RunTool | src/freecad_mcp/server.py:321-341 | a connection failure reaches the agent uncaught; otherwise the reply is `ToolReply` with the client screenshot taken in the `Isometric` orientation, since no tool names one |
| Adapter.Session.GetView | src/freecad_mcp/server.py:466-472 | a connection failure is raised; otherwise the reply is `ViewReply` of the client screenshot in the orientation the agent named |
| Adapter.Session.NodesScreenshot | src/freecad_mcp/server.py:488-496 | a connection failure is raised; otherwise the reply is `NodesScreenshotReply` |
| Adapter.Session.CreateNode | src/freecad_mcp/server.py:520-659 | a connection failure is raised; otherwise the reply is `NodeCreateReply`, built with the corrected status line and failure text (see Findings) |

## Left out

- XML-RPC transport, the server thread and `serve_forever`: calls are modelled as method calls, and the GUI thread's timer as explicit `Tick` calls. Concurrent interleavings of callers are covered only through `ServeTogether` (all submit, one tick, all take).
- Bridge.Bridge.Get: the source blocks without a timeout. The model requires a waiting result instead, and `SubmitAndWait` requires a closure that does not return None (the case that would block forever).
- Console messages (`PrintMessage`, `PrintError`, `PrintWarning`) and the logger: output only. The (key, fault) log of `ApplyProperties` stands for the per-key error message.
- `doc.recompute()`: it is FreeCAD's own computation and is treated as changing nothing the model tracks.
- Dispatcher.CreateDocumentGui: `newDocument` raising is not modelled. The source has no handler for it, and the model always returns True.
- Dispatcher.RunTask: a closure that raises is not modelled. `newDocument` (line 463) and the `getDocument` calls (lines 469, 530, 564) sit outside any try. If one of them raised, the exception would leave `process_gui_tasks` before the timer is re-armed at line 35. Later requests would then wait on the queue, and the caller would block. The model has every closure return a value.
- Dispatcher.ParseObjectRequest: an `obj_data` that is not a dict and a missing `Type` fail before anything is submitted, as in the source. `Object` is a plain dataclass, though, so a `Name` or `Type` that is not a string, or a `Properties` that is not a dict, reaches the closure in the source. There it fails late: a non-string `Type` raises at `startswith`; on the generic path `addObject` runs first, then `.items()` raises, and the created object stays in the document. The model refuses these requests up front with a failure text it invents, so it leaves the document unchanged where the source does not.
- Dispatcher.EditProperties: a `properties` argument that is not a dict fails before submission, as in the source. A `Properties` that is not a mapping reaches the closure in the source. There a missing document or object is reported first (lines 531-538), then `.items()` raises inside the try. The model refuses it up front with an invented text and does not check the document or the object.
- Coercion.FloatOf: `float()` of a numeric string is not modelled. Strings always count as refused components.
- Coercion.ViewColorOf: a string colour in a `ViewObject` mapping, which Python would index character by character, is treated as not indexable.
- Coercion.ApplyKey: `isinstance(getattr(obj, prop), FreeCAD.Vector)` is read from the stored property value. `hasattr(res, param)` for mesh parameters is approximated by the declared property set. A `setattr`, `FreeCAD.Vector` or `FreeCAD.Placement` that FreeCAD refuses for the value's type never fails in the model. In the source such a key is logged and skipped by its own try block.
- Dispatcher.AssignExisting: a mesh parameter the mesh has is always set. In the source a `setattr` that FreeCAD refuses in the loop at lines 485-487 would abort the whole request, and the mesh would stay in the document.
- Dispatcher.AnalysisOf: `getattr(doc, analysis)` is approximated by lookup of an object name in the document. Attributes of the document that are not objects are not modelled, and neither is `addObject` called on an object that is not an analysis.
- FreeCAD's constructors, `ObjectsFem`, `GmshTools.create_mesh`, the parts library, `exec` and image export are oracles in `Host`. Their internal behaviour is not modelled.
- Image encoding, temporary files and their removal are not modelled. A saved screenshot is recorded as a path in the view, and the encoded image is `host.render` of the orientation.
- Dispatcher.SaveActiveScreenshotGui: the `fitAll` zoom after orienting (line 611) is not modelled. The view records its orientation and saved paths, not its camera zoom, so a screenshot taken by any tool changes only those.
- The node-creation script body and the node-graph GUI code of the addon (lines 373-460 apart from the op-code parse at 424-425 and the exception reply at 456-460) are left out. So is the addon side of `get_nodes_workbench_screenshot` (275-371). What the adapter receives from them is a parameter.
- `get_objects`, `get_object`, `get_parts_list`, `list_documents` and the resources of the adapter are read-only and are not part of this model.
- Values.Value: Python's int and float are both `Num(real)`.
- Values.Lookup: a dict is an ordered list of entries and `Lookup` reads the first entry with a key. A Python dict holds each key once, so the lists the source produces never repeat a key; lists that do are not excluded, and for them Python's keep-the-last rule is not modelled.
- Values.Show: numbers, lists and dicts are shown by fixed stand-ins. Python's exact `str()` of them is not modelled.
- Adapter.ReadQuoted: only the two escapes the title literal produces (a doubled backslash and a backslash before a quote) are decoded. Any other escape counts as unreadable.
- Adapter.WithLog: the separator `\n` on lines 643 and 645 sits in an f-string with a doubled backslash. It is therefore a backslash and an `n`, kept as written.
- Adapter.NodeCreateReply: the title literal is not traced into the script, whose text is left out. The model uses the corrected status line and failure text (see Findings).
- Adapter.NodeStatusReply: it classifies the corrected `StatusLine`, the last line split on the newline character, not the as-written split of line 632 (see Findings).
- Adapter.Session.CreateNode: its reply uses the corrected `StatusLine` and `NodeScriptFailure`, not the as-written lines 632 and 649 (see Findings).
- Lifecycle.RpcServer.Stop: the drain timer chain is not cancelled by a stop. The model records this as a pending timer and `StartStopStart` proves it.
- Dispatcher.CreateMesh: per the code, the mesh is created and attached before `Part` is checked, so a refused request leaves it behind (`MeshWithoutPartLeavesMesh`).

## Findings

| source | as written | input that shows it | evidently intended | confidence | as-written member | corrected member |
|---|---|---|---|---|---|---|
| src/freecad_mcp/server.py:530 | the doubled escapes make `replace` look for a pair of backslashes and turn `'` into two backslashes and a quote, so the quote still closes the literal | title `it's` becomes `'it\\'s'`, which is not one Python literal | each backslash doubled and each quote escaped, so the literal reads back as the title | high, not executed | Adapter.EscapeTitleAsWritten, Adapter.TitleQuoteBreaksLiteral | Adapter.EscapeTitle |
| src/freecad_mcp/server.py:632 | the output is split on a backslash, a backslash and `n`, which the printed output never contains | output `a`, newline, `b`: the "last line" is the whole output | the last line of the output, split on the newline character | high, not executed | Adapter.StatusLineAsWritten, Adapter.StatusLineCounterexample, Adapter.StatusLineAsWrittenIsWholeOutput | Adapter.StatusLine |
| src/freecad_mcp/server.py:649 | doubled braces in the f-string print the literal text `{str(e)}` | any two different exceptions give the same text | the exception's text after the fixed head | high, not executed | Adapter.NodeScriptFailureAsWritten, Adapter.ScriptFailureLosesError | Adapter.NodeScriptFailure |
