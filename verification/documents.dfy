/** The document manager: three append-only registries of plugins (editor
    factories, storages, templates), the list of open editors, and the
    document lifecycle built on first-match resolution over the registries.

    Plugins are external code; each is modelled by what the manager can
    observe of it. The manager's calls into plugins are recorded in `calls`,
    and its DocumentOpened / DocumentClosed notifications in `events`. */
module Documents {
  import opened Lists
  import Paths

  /** The runtime type of a document, which factories and storages are asked about. */
  type TypeName = string

  /** The name and path of a reference as a plugin hands it over. */
  datatype RefValue = RefValue(name: string, path: string)

  /** The state of a document as a plugin creates it. */
  datatype DocState = DocState(docType: TypeName, isDirty: bool, reference: Option<RefValue>)

  /** What a storage's Read does for a path: returns a document, returns null, or throws. */
  datatype ReadOutcome = Loaded(state: DocState) | ReadNull | ReadFault

  /** An editor factory: which document types it claims, and for which of them
      its CreateEditor returns an editor rather than null. */
  datatype EditorFactory = EditorFactory(canEdit: TypeName -> bool, yieldsEditor: TypeName -> bool)

  /** A storage: CanRead over paths, CanWrite over document types, what Read
      does for a path, and whether Write to a path succeeds for a document type. */
  datatype Storage = Storage(
    canRead: string -> bool,
    canWrite: TypeName -> bool,
    read: string -> ReadOutcome,
    writeSucceeds: (string, TypeName) -> bool)

  /** A document template: what its CreateDocument returns (None for null). */
  datatype Template = Template(creates: Option<DocState>)

  /** The exceptions the lifecycle operations raise. */
  datatype Error =
    | EditorFailed     // no factory claims the type, or the claiming factory returned null
    | OpenFailed       // no storage claims the path, or the claiming storage returned null
    | NoStorage        // no storage can write the document's type
    | MissingReference // Save on a document without a reference
    | NullReference    // a null document or reference dereferenced
    | BackendFault     // a storage's Read or Write threw

  datatype Result<T> = Ok(value: T) | Err(error: Error)

  datatype Outcome = Pass | Fail(error: Error)

  /** The on-disk identity of a document; save-as updates its fields in place. */
  class Reference {
    var name: string
    var path: string

    constructor (name: string, path: string)
      ensures this.name == name && this.path == path
    {
      this.name := name;
      this.path := path;
    }
  }

  class Document {
    const docType: TypeName
    var isDirty: bool
    var reference: Reference?

    /** The document's type, dirty flag and reference are those of `state`. */
    ghost predicate HasState(state: DocState)
      reads this, reference
    {
      && docType == state.docType
      && isDirty == state.isDirty
      && (reference == null <==> state.reference.None?)
      && (reference != null ==>
            reference.name == state.reference.value.name && reference.path == state.reference.value.path)
    }

    /** A fresh document in the state a plugin created it in. */
    constructor (state: DocState)
      ensures HasState(state)
      ensures reference != null ==> fresh(reference)
    {
      docType := state.docType;
      isDirty := state.isDirty;
      if state.reference.Some? {
        reference := new Reference(state.reference.value.name, state.reference.value.path);
      } else {
        reference := null;
      }
    }
  }

  /** An editor wraps one document; editors are compared by identity. */
  class Editor {
    const document: Document

    constructor (document: Document)
      ensures this.document == document
    {
      this.document := document;
    }
  }

  /** A notification, with the open-editor list as a subscriber sees it. */
  datatype Event = Opened(editor: Editor, openEditors: seq<Editor>) | Closed(editor: Editor, openEditors: seq<Editor>)

  /** A call the manager makes into a plugin, identified by registry index. */
  datatype PluginCall =
    | CreateEditorCall(factory: nat, document: Document)
    | ReadCall(storage: nat, path: string)
    | WriteCall(storage: nat, path: string, document: Document)

  /** CanEdit of a factory for type `t`, as a predicate over factories. */
  function Edits(t: TypeName): EditorFactory -> bool {
    (f: EditorFactory) => f.canEdit(t)
  }

  /** CanRead of a storage for `path`, as a predicate over storages. */
  function Reads(path: string): Storage -> bool {
    (s: Storage) => s.canRead(path)
  }

  /** CanWrite of a storage for type `t`, as a predicate over storages. */
  function Writes(t: TypeName): Storage -> bool {
    (s: Storage) => s.canWrite(t)
  }

  /** The factory that resolves for a document type. */
  function FactoryFor(factories: seq<EditorFactory>, t: TypeName): Option<nat> {
    FirstWhere(factories, Edits(t))
  }

  /** The storage that resolves for reading a path. */
  function ReaderFor(storages: seq<Storage>, path: string): Option<nat> {
    FirstWhere(storages, Reads(path))
  }

  /** The storage that resolves for writing a document type. */
  function WriterFor(storages: seq<Storage>, t: TypeName): Option<nat> {
    FirstWhere(storages, Writes(t))
  }

  /** Registering a factory never changes a resolution that already
      succeeds; the new factory is chosen only for types nothing before it
      can edit. */
  lemma RegisterFactoryResolution(factories: seq<EditorFactory>, f: EditorFactory, t: TypeName)
    ensures FactoryFor(factories + [f], t) ==
      match FactoryFor(factories, t)
      case Some(i) => Some(i)
      case None => if f.canEdit(t) then Some(|factories|) else None
  {
    if FactoryFor(factories, t).Some? {
      AppendKeepsFirst(factories, [f], Edits(t));
    } else {
      AppendAfterNoMatch(factories, [f], Edits(t));
    }
  }

  /** Registering a storage never changes a read or write resolution that
      already succeeds; the new storage is chosen only where none was. */
  lemma RegisterStorageResolution(storages: seq<Storage>, s: Storage, path: string, t: TypeName)
    ensures ReaderFor(storages + [s], path) ==
      match ReaderFor(storages, path)
      case Some(i) => Some(i)
      case None => if s.canRead(path) then Some(|storages|) else None
    ensures WriterFor(storages + [s], t) ==
      match WriterFor(storages, t)
      case Some(i) => Some(i)
      case None => if s.canWrite(t) then Some(|storages|) else None
  {
    if ReaderFor(storages, path).Some? {
      AppendKeepsFirst(storages, [s], Reads(path));
    } else {
      AppendAfterNoMatch(storages, [s], Reads(path));
    }
    if WriterFor(storages, t).Some? {
      AppendKeepsFirst(storages, [s], Writes(t));
    } else {
      AppendAfterNoMatch(storages, [s], Writes(t));
    }
  }

  class DocumentManager {
    var factories: seq<EditorFactory>
    var storages: seq<Storage>
    var templates: seq<Template>
    var editors: seq<Editor>
    var events: seq<Event>
    var calls: seq<PluginCall>

    constructor ()
      ensures factories == [] && storages == [] && templates == []
      ensures editors == [] && events == [] && calls == []
    {
      factories, storages, templates := [], [], [];
      editors, events, calls := [], [], [];
    }

    method RegisterEditorFactory(factory: EditorFactory)
      modifies this
      ensures factories == old(factories) + [factory]
      ensures storages == old(storages) && templates == old(templates)
      ensures editors == old(editors) && events == old(events) && calls == old(calls)
    {
      factories := factories + [factory];
    }

    method RegisterStorage(storage: Storage)
      modifies this
      ensures storages == old(storages) + [storage]
      ensures factories == old(factories) && templates == old(templates)
      ensures editors == old(editors) && events == old(events) && calls == old(calls)
    {
      storages := storages + [storage];
    }

    method RegisterTemplate(template: Template)
      modifies this
      ensures templates == old(templates) + [template]
      ensures factories == old(factories) && storages == old(storages)
      ensures editors == old(editors) && events == old(events) && calls == old(calls)
    {
      templates := templates + [template];
    }

    /** Scans the storages in order for the first that can write the
        document's type. */
    method FindStorage(document: Document) returns (r: Result<nat>)
      ensures r.Ok? ==> r.value < |storages| && storages[r.value].canWrite(document.docType)
      ensures r.Ok? ==> forall j :: 0 <= j < r.value ==> !storages[j].canWrite(document.docType)
      ensures r.Err? <==> forall j :: 0 <= j < |storages| ==> !storages[j].canWrite(document.docType)
      ensures r.Err? ==> r.error == NoStorage
      ensures r == match WriterFor(storages, document.docType)
                   case Some(i) => Ok(i)
                   case None => Err(NoStorage)
    {
      var found: Option<nat> := None;
      var i := 0;
      while i < |storages|
        invariant 0 <= i <= |storages|
        invariant found == None
        invariant forall j :: 0 <= j < i ==> !storages[j].canWrite(document.docType)
      {
        if storages[i].canWrite(document.docType) {
          found := Some(i);
          break;
        }
        i := i + 1;
      }
      if found.None? {
        return Err(NoStorage);
      }
      FirstWhereUnique(storages, Writes(document.docType), found.value);
      r := Ok(found.value);
    }

    /** The private CreateEditor: asks the first factory that can edit the
        document's type, and only that one, for an editor; tracks the editor
        when one is returned. */
    method CreateEditor(document: Document) returns (r: Result<Editor>)
      modifies this
      ensures factories == old(factories) && storages == old(storages) && templates == old(templates)
      ensures events == old(events)
      ensures match FactoryFor(factories, document.docType)
        case None =>
          r == Err(EditorFailed) && editors == old(editors) && calls == old(calls)
        case Some(i) =>
          calls == old(calls) + [CreateEditorCall(i, document)] &&
          if factories[i].yieldsEditor(document.docType) then
            r.Ok? && fresh(r.value) && r.value.document == document && editors == old(editors) + [r.value]
          else
            r == Err(EditorFailed) && editors == old(editors)
    {
      var editor: Editor? := null;
      var i := 0;
      while i < |factories|
        invariant 0 <= i <= |factories|
        invariant editor == null && calls == old(calls)
        invariant forall j :: 0 <= j < i ==> !factories[j].canEdit(document.docType)
      {
        if factories[i].canEdit(document.docType) {
          calls := calls + [CreateEditorCall(i, document)];
          if factories[i].yieldsEditor(document.docType) {
            editor := new Editor(document);
          }
          FirstWhereUnique(factories, Edits(document.docType), i);
          break;
        }
        i := i + 1;
      }
      if editor == null {
        return Err(EditorFailed);
      }
      editors := editors + [editor];
      r := Ok(editor);
    }

    /** The private Read: asks the first storage that can read `path`, and
        only that one, for the document. */
    method Read(path: string) returns (r: Result<Document>)
      modifies this
      ensures factories == old(factories) && storages == old(storages) && templates == old(templates)
      ensures editors == old(editors) && events == old(events)
      ensures match ReaderFor(storages, path)
        case None =>
          r == Err(OpenFailed) && calls == old(calls)
        case Some(i) =>
          calls == old(calls) + [ReadCall(i, path)] &&
          match storages[i].read(path)
          case Loaded(state) =>
            r.Ok? && fresh(r.value) && r.value.HasState(state) &&
            (r.value.reference != null ==> fresh(r.value.reference))
          case ReadNull => r == Err(OpenFailed)
          case ReadFault => r == Err(BackendFault)
    {
      var document: Document? := null;
      var i := 0;
      while i < |storages|
        invariant 0 <= i <= |storages|
        invariant document == null && calls == old(calls)
        invariant forall j :: 0 <= j < i ==> !storages[j].canRead(path)
      {
        if storages[i].canRead(path) {
          calls := calls + [ReadCall(i, path)];
          FirstWhereUnique(storages, Reads(path), i);
          var outcome := storages[i].read(path);
          if outcome.ReadFault? {
            return Err(BackendFault);
          }
          if outcome.Loaded? {
            document := new Document(outcome.state);
          }
          break;
        }
        i := i + 1;
      }
      if document == null {
        return Err(OpenFailed);
      }
      r := Ok(document);
    }

    /** Creates a document from a template, marks it dirty, and opens an
        editor for it; DocumentOpened fires once the editor is tracked. */
    method Create(template: Template) returns (r: Result<Editor>)
      modifies this
      ensures factories == old(factories) && storages == old(storages) && templates == old(templates)
      ensures template.creates.None? ==>
        r == Err(NullReference) && editors == old(editors) && events == old(events) && calls == old(calls)
      ensures template.creates.Some? ==>
        var state := template.creates.value.(isDirty := true);
        match FactoryFor(factories, state.docType)
        case None =>
          r == Err(EditorFailed) && editors == old(editors) && events == old(events) && calls == old(calls)
        case Some(i) =>
          |calls| == |old(calls)| + 1 && calls[..|old(calls)|] == old(calls) &&
          var call := calls[|old(calls)|];
          call.CreateEditorCall? && call.factory == i && fresh(call.document) && call.document.HasState(state) &&
          (call.document.reference != null ==> fresh(call.document.reference)) &&
          if factories[i].yieldsEditor(state.docType) then
            && r.Ok? && fresh(r.value) && r.value.document == call.document
            && editors == old(editors) + [r.value]
            && events == old(events) + [Opened(r.value, editors)]
          else
            r == Err(EditorFailed) && editors == old(editors) && events == old(events)
    {
      if template.creates.None? {
        return Err(NullReference);
      }
      var document := new Document(template.creates.value);
      document.isDirty := true;
      r := CreateEditor(document);
      if r.Err? {
        return;
      }
      events := events + [Opened(r.value, editors)];
    }

    /** Reads the document at `path` through the first storage that can read
        it, then opens an editor for it; DocumentOpened fires once the editor
        is tracked. */
    method Open(path: string) returns (r: Result<Editor>)
      modifies this
      ensures factories == old(factories) && storages == old(storages) && templates == old(templates)
      ensures match ReaderFor(storages, path)
        case None =>
          r == Err(OpenFailed) && editors == old(editors) && events == old(events) && calls == old(calls)
        case Some(i) =>
          |calls| > |old(calls)| && calls[..|old(calls)| + 1] == old(calls) + [ReadCall(i, path)] &&
          match storages[i].read(path)
          case ReadFault =>
            r == Err(BackendFault) && |calls| == |old(calls)| + 1 && editors == old(editors) && events == old(events)
          case ReadNull =>
            r == Err(OpenFailed) && |calls| == |old(calls)| + 1 && editors == old(editors) && events == old(events)
          case Loaded(state) =>
            match FactoryFor(factories, state.docType)
            case None =>
              r == Err(EditorFailed) && |calls| == |old(calls)| + 1 && editors == old(editors) && events == old(events)
            case Some(f) =>
              |calls| == |old(calls)| + 2 &&
              var call := calls[|old(calls)| + 1];
              call.CreateEditorCall? && call.factory == f && fresh(call.document) && call.document.HasState(state) &&
              (call.document.reference != null ==> fresh(call.document.reference)) &&
              if factories[f].yieldsEditor(state.docType) then
                && r.Ok? && fresh(r.value) && r.value.document == call.document
                && editors == old(editors) + [r.value]
                && events == old(events) + [Opened(r.value, editors)]
              else
                r == Err(EditorFailed) && editors == old(editors) && events == old(events)
    {
      var document := Read(path);
      if document.Err? {
        return Err(document.error);
      }
      r := CreateEditor(document.value);
      if r.Err? {
        return;
      }
      events := events + [Opened(r.value, editors)];
    }

    /** Saves a document to its own reference's path. A storage is resolved
        before the reference is checked. */
    method Save(document: Document) returns (r: Outcome)
      modifies this, document
      ensures factories == old(factories) && storages == old(storages) && templates == old(templates)
      ensures editors == old(editors) && events == old(events)
      ensures document.reference == old(document.reference)
      ensures document.reference != null ==> unchanged(document.reference)
      ensures match WriterFor(storages, document.docType)
        case None =>
          r == Fail(NoStorage) && calls == old(calls) && document.isDirty == old(document.isDirty)
        case Some(i) =>
          if document.reference == null then
            r == Fail(MissingReference) && calls == old(calls) && document.isDirty == old(document.isDirty)
          else
            && calls == old(calls) + [WriteCall(i, document.reference.path, document)]
            && if storages[i].writeSucceeds(document.reference.path, document.docType) then
                 r == Pass && !document.isDirty
               else
                 r == Fail(BackendFault) && document.isDirty == old(document.isDirty)
    {
      var storage := FindStorage(document);
      if storage.Err? {
        return Fail(storage.error);
      }
      if document.reference == null {
        return Fail(MissingReference);
      }
      var i := storage.value;
      calls := calls + [WriteCall(i, document.reference.path, document)];
      if !storages[i].writeSucceeds(document.reference.path, document.docType) {
        return Fail(BackendFault);
      }
      document.isDirty := false;
      r := Pass;
    }

    /** Saves a document to `path`, then renames its existing reference in
        place and clears the dirty flag. A document without a reference
        faults only after the write. */
    method SaveAs(path: string, document: Document) returns (r: Outcome)
      modifies this, document, document.reference
      ensures factories == old(factories) && storages == old(storages) && templates == old(templates)
      ensures editors == old(editors) && events == old(events)
      ensures document.reference == old(document.reference)
      ensures WriterFor(storages, document.docType).None? ==> r == Fail(NoStorage) && calls == old(calls)
      ensures WriterFor(storages, document.docType).Some? ==>
        var i := WriterFor(storages, document.docType).value;
        && calls == old(calls) + [WriteCall(i, path, document)]
        && (!storages[i].writeSucceeds(path, document.docType) ==> r == Fail(BackendFault))
        && (storages[i].writeSucceeds(path, document.docType) ==>
              r == if document.reference == null then Fail(NullReference) else Pass)
      ensures r != Pass ==> document.isDirty == old(document.isDirty)
      ensures r != Pass && document.reference != null ==> unchanged(document.reference)
      ensures r == Pass ==>
        && document.reference != null && !document.isDirty
        && document.reference.name == Paths.FileName(path) && document.reference.path == path
    {
      var storage := FindStorage(document);
      if storage.Err? {
        return Fail(storage.error);
      }
      var i := storage.value;
      calls := calls + [WriteCall(i, path, document)];
      if !storages[i].writeSucceeds(path, document.docType) {
        return Fail(BackendFault);
      }
      if document.reference == null {
        return Fail(NullReference);
      }
      var name := Paths.FileName(path);
      document.reference.name := name;
      document.reference.path := path;
      document.isDirty := false;
      r := Pass;
    }

    /** Writes a document to `path` without touching the document. */
    method SaveACopy(path: string, document: Document) returns (r: Outcome)
      modifies this
      ensures factories == old(factories) && storages == old(storages) && templates == old(templates)
      ensures editors == old(editors) && events == old(events)
      ensures unchanged(document)
      ensures document.reference != null ==> unchanged(document.reference)
      ensures match WriterFor(storages, document.docType)
        case None =>
          r == Fail(NoStorage) && calls == old(calls)
        case Some(i) =>
          && calls == old(calls) + [WriteCall(i, path, document)]
          && r == if storages[i].writeSucceeds(path, document.docType) then Pass else Fail(BackendFault)
    {
      var storage := FindStorage(document);
      if storage.Err? {
        return Fail(storage.error);
      }
      var i := storage.value;
      calls := calls + [WriteCall(i, path, document)];
      r := if storages[i].writeSucceeds(path, document.docType) then Pass else Fail(BackendFault);
    }

    /** Stops tracking `editor` (its first occurrence; nothing when absent)
        and fires DocumentClosed. */
    method Close(editor: Editor)
      modifies this
      ensures factories == old(factories) && storages == old(storages) && templates == old(templates)
      ensures calls == old(calls)
      ensures editors == RemoveFirst(old(editors), editor)
      ensures events == old(events) + [Closed(editor, editors)]
    {
      editors := RemoveFirst(editors, editor);
      events := events + [Closed(editor, editors)];
    }
  }

  /** A client: one storage for ".skin" paths and one factory for skin
      documents; opening a skin reads it and opens one editor. */
  method OpenSkin() {
    var manager := new DocumentManager();
    var state := DocState("SkinDocument", false, Some(RefValue("a.skin", "a.skin")));
    var storage := Storage(p => p == "a.skin", t => t == "SkinDocument", p => Loaded(state), (p, t) => true);
    manager.RegisterStorage(storage);
    manager.RegisterEditorFactory(EditorFactory(t => t == "SkinDocument", t => true));
    assert ReaderFor(manager.storages, "a.skin") == Some(0);
    assert FactoryFor(manager.factories, "SkinDocument") == Some(0);
    assert manager.storages[0].read("a.skin") == Loaded(state);

    var outcome := manager.Open("a.skin");
    assert outcome.Ok?;
    var editor := outcome.value;
    assert manager.editors == [editor];
    assert manager.events == [Opened(editor, [editor])];
    assert manager.calls == [ReadCall(0, "a.skin"), CreateEditorCall(0, editor.document)];
    assert !editor.document.isDirty && editor.document.reference != null;
  }

  /** A client: save a dirty skin under another name, then close an editor
      that was never opened. */
  method RenameSkin() {
    var manager := new DocumentManager();
    manager.RegisterStorage(Storage(p => false, t => t == "SkinDocument", p => ReadNull, (p, t) => true));
    var document := new Document(DocState("SkinDocument", true, Some(RefValue("a.skin", "a.skin"))));
    assert WriterFor(manager.storages, "SkinDocument") == Some(0);
    Paths.FileNameAfterDirectory("skins", '/', "b.skin");
    assert "skins/b.skin" == "skins" + ['/'] + "b.skin";

    var saved := manager.SaveAs("skins/b.skin", document);
    assert saved == Pass && !document.isDirty;
    assert document.reference.name == "b.skin" && document.reference.path == "skins/b.skin";
    assert manager.calls == [WriteCall(0, "skins/b.skin", document)];

    var stray := new Editor(document);
    manager.Close(stray);
    assert manager.editors == [];
    assert manager.events == [Closed(stray, [])];
  }
}
