# Rainmeter Studio document manager and tree, in Dafny

This project models two components of Rainmeter Studio, a desktop editor
for Rainmeter skins.

**The document manager** (`DocumentManager`) keeps three append-only plugin
registries: editor factories, storages and document templates. It also keeps
the list of open editors. It resolves plugins by scanning a registry in
registration order; the first capable entry wins. On top of that it runs the
document lifecycle: create from a template, open from a path, save, save as,
save a copy, and close.

- Plugins are external code. Each is modelled by what the manager observes:
  - a factory by `canEdit` and by whether its `CreateEditor` returns an editor or null;
  - a storage by `canRead`, `canWrite`, what its `Read` does for a path
    (returns a document, returns null, or throws) and whether its `Write` succeeds;
  - a template by the document its `CreateDocument` returns, or null.
- Documents, their references and editors are classes. The manager updates
  `IsDirty` and the reference's `Name`/`Path` in place, and compares editors
  by identity.
- Every call the manager makes into a plugin's `Read`, `Write` or
  `CreateEditor` is appended to `calls`.
- `DocumentOpened` and `DocumentClosed` are appended to `events`, with the
  open-editor list as a subscriber would see it at that moment.

**The tree** (`Tree<T>`) is a node with `Data` and an ordered list of
children. Equality is structural and order-sensitive. The hash folds the
children's hashes into the data's hash with `h * 7 + hash(child)` in 32-bit
arithmetic. The datatype `Tree` is the value of a subtree. The class
`TreeNode` is a node whose data and child list the list operations update in
place. `Count()` is the length of the child list, and every mutating
operation states its new `Count()`.

Files:
- `lists.dfy`: first-match scan and remove-first-occurrence.
- `paths.dfy`: the file name of a path.
- `documents.dfy`: the document manager. It ends with two client methods,
  `OpenSkin` and `RenameSkin`. They exercise the contracts on short sessions
  and are checked by the verifier like every other member.
- `trees.dfy`: the tree.

## Behaviour as written

Where the code's behaviour differs from what the operation names suggest,
the model follows the code:

- `Save` resolves a storage before it checks the reference. A document with
  no storage fails with the storage error even when its reference is null.
  With no reference, nothing is written.
- `SaveAs` does not create a reference. It writes first and then assigns the
  existing reference's `Name` and `Path`. For a document whose reference is
  null, the write has already happened when the null dereference faults.
  `IsDirty` is unchanged and the reference stays null.
- `Open` raises the same error ("Failed to open document.") whether no
  storage can read the path or the chosen storage's `Read` returned null.
  `CreateEditor` likewise raises one error for "no factory" and "the chosen
  factory returned null".
- A later capable entry is never tried. This holds when the chosen factory
  returns null and when the chosen storage's `Read` returns null.
- `Create` marks the new document dirty before it looks for an editor. A
  null document from the template faults on that assignment.
- The value overloads of the tree (`IndexOf(T)`, `Contains(T)`, `Remove(T)`)
  compare against a fresh leaf. They match only children that are leaves
  holding the value, never a child with the same data that has children.

## Model

| member | source | states |
|---|---|---|
| `Lists.FirstWhere` | RainmeterStudio/Business/DocumentManager.cs:325-330 | the scan result is the lowest index whose entry is capable, with no capable entry before it; no result exactly when no entry is capable |
| `Lists.AppendKeepsFirst` | RainmeterStudio/Business/DocumentManager.cs:129-150 | appending registrations never changes a resolution that already succeeds |
| `Lists.AppendAfterNoMatch` | RainmeterStudio/Business/DocumentManager.cs:129-150 | when nothing registered so far is capable, resolution picks the first capable later registration, at its position after the earlier ones |
| `Lists.RegisteredFirstWins` | RainmeterStudio/Business/DocumentManager.cs:302-307 | of two capable storages, the one registered first is chosen, whatever else is registered after it |
| `Lists.RemoveFirst` | RainmeterStudio/Business/DocumentManager.cs:257 | removes exactly the first occurrence of the element (multiset minus one copy); the list is unchanged when the element is absent |
| `Lists.RemoveFirstOfAppended` | RainmeterStudio/Business/DocumentManager.cs:254-262 | closing an editor that was just appended and occurs nowhere else restores the previous editor list |
| `Paths.FileNameIsLastSegment` | RainmeterStudio/Business/DocumentManager.cs:229 | the name given to a saved-as reference is a suffix of the path with no separator in it, preceded by a separator unless it is the whole path |
| `Paths.FileNameOfPlainName` | RainmeterStudio/Business/DocumentManager.cs:229 | a path without separators is its own file name |
| `Paths.FileNameAfterDirectory` | RainmeterStudio/Business/DocumentManager.cs:229 | the directories in front of a file name do not affect it |
| `Documents.RegisterFactoryResolution` | RainmeterStudio/Business/DocumentManager.cs:129-132 | registering a factory keeps every existing editor resolution; the new factory is chosen only for types no earlier factory can edit |
| `Documents.RegisterStorageResolution` | RainmeterStudio/Business/DocumentManager.cs:138-141 | registering a storage keeps every existing read and write resolution; the new storage is chosen only where no earlier storage was capable |
| `Documents.DocumentManager.constructor` | RainmeterStudio/Business/DocumentManager.cs:54-68 | a new manager has empty registries, no open editors, and no events or plugin calls |
| `Documents.DocumentManager.RegisterEditorFactory` | RainmeterStudio/Business/DocumentManager.cs:129-132 | appends the factory, without deduplication, and changes nothing else |
| `Documents.DocumentManager.RegisterStorage` | RainmeterStudio/Business/DocumentManager.cs:138-141 | appends the storage, without deduplication, and changes nothing else |
| `Documents.DocumentManager.RegisterTemplate` | RainmeterStudio/Business/DocumentManager.cs:147-150 | appends the template, without deduplication, and changes nothing else |
| `Documents.DocumentManager.FindStorage` | RainmeterStudio/Business/DocumentManager.cs:321-336 | returns the lowest-index storage that can write the document's type; fails with the storage error iff none can |
| `Documents.DocumentManager.CreateEditor` | RainmeterStudio/Business/DocumentManager.cs:274-290 | calls `CreateEditor` on the first factory that can edit the type, and on no other; tracks the editor it returns; fails with nothing tracked when no factory can edit the type or the chosen one returns null |
| `Documents.DocumentManager.Read` | RainmeterStudio/Business/DocumentManager.cs:298-314 | calls `Read` on the first storage that can read the path, and on no other; returns its fresh document, or fails on null, on a throw, or when no storage can read the path |
| `Documents.DocumentManager.Create` | RainmeterStudio/Business/DocumentManager.cs:161-175 | the new document is dirty; on success exactly the returned editor is appended and DocumentOpened fires once with it, after it is tracked; on every failure the editor list and events are unchanged |
| `Documents.DocumentManager.Open` | RainmeterStudio/Business/DocumentManager.cs:181-194 | reads through the first capable storage, then opens an editor through the first capable factory; on success appends exactly that editor and fires DocumentOpened once; on failure the editor list and events are unchanged |
| `Documents.DocumentManager.Save` | RainmeterStudio/Business/DocumentManager.cs:200-213 | fails first when no storage can write the type; then fails without writing when the reference is null; otherwise writes to the reference's path and clears the dirty flag only if the write succeeds; the reference is never changed |
| `Documents.DocumentManager.SaveAs` | RainmeterStudio/Business/DocumentManager.cs:220-234 | writes to the path; on success the same reference object has the path and its file name and the document is clean; a failed write or a null reference leaves the dirty flag and the reference as they were |
| `Documents.DocumentManager.SaveACopy` | RainmeterStudio/Business/DocumentManager.cs:241-248 | writes through the first storage that can write the type and never changes the document, its reference or the editor list |
| `Documents.DocumentManager.Close` | RainmeterStudio/Business/DocumentManager.cs:254-262 | removes the first occurrence of the editor, or nothing when it is absent, and always fires DocumentClosed once |
| `Trees.Wrap` | RainmeterStudio.Core/Model/Tree.cs:147 | the result is in the `int` range and congruent to the exact value modulo 2^32 |
| `Trees.EqualReflexive` | RainmeterStudio.Core/Model/Tree.cs:126-140 | every tree equals itself |
| `Trees.EqualIsIdentity` | RainmeterStudio.Core/Model/Tree.cs:126-140 | two trees are equal under Equals exactly when they have the same data and the same children in the same order, recursively |
| `Trees.EqualIsEquivalence` | RainmeterStudio.Core/Model/Tree.cs:126-140 | Equals is reflexive, symmetric and transitive |
| `Trees.SwapBreaksEquality` | RainmeterStudio.Core/Model/Tree.cs:139 | exchanging two children that are not equal gives a tree that is not equal to the original: order matters |
| `Trees.HashRespectsEqual` | RainmeterStudio.Core/Model/Tree.cs:142-150 | equal trees have equal hashes |
| `Trees.EqualByValue` | RainmeterStudio.Core/Model/Tree.cs:126-140 | Equals with the data compared by the data type's own Equals coincides with the model's Equals when that Equals is value equality |
| `Trees.HashRespectsEqualBy` | RainmeterStudio.Core/Model/Tree.cs:126-150 | trees equal under the data type's own Equals have equal hashes, whenever the data's hash agrees with that Equals |
| `Trees.HashPrefixRespectsEqualBy` | RainmeterStudio.Core/Model/Tree.cs:142-150 | the hash accumulators of two such trees agree after every number of children |
| `Trees.HashPrefixOfPrefix` | RainmeterStudio.Core/Model/Tree.cs:146-147 | the hash accumulator after the first n children depends only on those children |
| `Trees.HashOfAppend` | RainmeterStudio.Core/Model/Tree.cs:146-147 | appending a child advances the hash by one step `h * 7 + hash(child)`, in 32-bit arithmetic |
| `Trees.IndexIn` | RainmeterStudio.Core/Model/Tree.cs:28-31 | the index of the first child equal to the item, or -1 exactly when no child is equal |
| `Trees.MatchesLeaf` | RainmeterStudio.Core/Model/Tree.cs:95-98 | a child equals the fresh leaf built from a value iff it has no children and holds that value |
| `Trees.Filled` | RainmeterStudio.Core/Model/Tree.cs:115-119 | how many slots a copy fills before an index faults: all items exactly when there are none or they fit from a non-negative start |
| `Trees.TreeNode.constructor` | RainmeterStudio.Core/Model/Tree.cs:22-26 | a new node holds the data and has no children |
| `Trees.TreeNode.Contains` | RainmeterStudio.Core/Model/Tree.cs:65-68 | true iff IndexOf is non-negative, iff some child equals the item |
| `Trees.TreeNode.Get` | RainmeterStudio.Core/Model/Tree.cs:45-48 | the child at the index, or an out-of-range error exactly when the index is outside the child list |
| `Trees.TreeNode.Set` | RainmeterStudio.Core/Model/Tree.cs:49-52 | replaces only the child at the index; out of range fails and changes nothing; the data never changes |
| `Trees.TreeNode.Insert` | RainmeterStudio.Core/Model/Tree.cs:33-36 | children become `Children[..i] + [item] + Children[i..]`, with Count one higher; out of range fails and changes nothing |
| `Trees.TreeNode.RemoveAt` | RainmeterStudio.Core/Model/Tree.cs:38-41 | deletes index i only, with Count one lower; out of range fails and changes nothing |
| `Trees.TreeNode.Add` | RainmeterStudio.Core/Model/Tree.cs:55-58 | appends the item; the data never changes |
| `Trees.TreeNode.Clear` | RainmeterStudio.Core/Model/Tree.cs:60-63 | leaves no children, Count 0; the data never changes |
| `Trees.TreeNode.Remove` | RainmeterStudio.Core/Model/Tree.cs:85-88 | true iff some child equals the item, and then only the first such child is deleted; otherwise the children are unchanged |
| `Trees.TreeNode.CopyTo` | RainmeterStudio.Core/Model/Tree.cs:70-73 | copies all children into the array from the start index when they fit; a negative start or too little room fails and writes nothing |
| `Trees.TreeNode.IndexOfValue` | RainmeterStudio.Core/Model/Tree.cs:95-98 | the index of the first child that is a leaf holding the value, or -1 iff no child is such a leaf |
| `Trees.TreeNode.ContainsValue` | RainmeterStudio.Core/Model/Tree.cs:110-113 | true iff some child is a leaf holding the value |
| `Trees.TreeNode.InsertValue` | RainmeterStudio.Core/Model/Tree.cs:100-103 | inserts a fresh leaf holding the value at the index; out of range fails and changes nothing |
| `Trees.TreeNode.AddValue` | RainmeterStudio.Core/Model/Tree.cs:105-108 | appends a fresh leaf holding the value |
| `Trees.TreeNode.RemoveValue` | RainmeterStudio.Core/Model/Tree.cs:121-124 | deletes the first child that is a leaf holding the value and returns true; returns false with the children unchanged when there is none |
| `Trees.TreeNode.CopyDataTo` | RainmeterStudio.Core/Model/Tree.cs:115-119 | writes each child's data to consecutive slots from the start index, in order, and no other slot; a slot outside the array faults after the writes before it |
| `Trees.TreeNode.Equals` | RainmeterStudio.Core/Model/Tree.cs:126-140 | true exactly when the other tree has the same data and the same children in order |
| `Trees.TreeNode.GetHashCode` | RainmeterStudio.Core/Model/Tree.cs:142-150 | the accumulator loop computes the fold `Hash` of the node |

## Left out

- `PerformAutoRegister` (reflection over loaded assemblies). Its effect is a
  sequence of `Register*` calls, which are modelled.
- .NET event delegates: events are an appended log. An exception thrown by a
  subscriber is not modelled. In the code, such an exception would leave the
  editor tracked.
- Null arguments: a null template, document, editor or path passed to the
  manager are excluded by Dafny's non-null types. The same holds for the
  tree. `Equals` with null or with an object that is not a tree (false in
  the code) is not modelled. Null children are not modelled; in the code
  `IndexOf(null)` finds them and `GetHashCode` faults on them. `CopyTo` with
  a null array (which throws) is not modelled either.
- Plugin results are restricted, in `CreateEditor`, `Read`, `Create` and
  `Open`:
  - Whether a factory's `CreateEditor` returns null depends only on the
    document's type, not on the document itself.
  - A non-null editor is always a new editor for the document it was given.
    A factory that returns an editor that is already open, which the code
    would track twice, is not modelled.
  - Every document a storage's `Read` or a template's `CreateDocument`
    returns is a new document.
- `TreeNode` and its operations compare data with value equality on `T`.
  The data type's own `Equals` is taken to be that equality. The general
  case, equality by an arbitrary data `Equals` that the data's hash
  respects, is stated only by `EqualBy` and the lemmas about it.
- Exceptions thrown by `CanEdit`, `CanRead`, `CanWrite`, `CreateEditor` or
  `CreateDocument` are not modelled. Those thrown by `Read` and `Write` are.
- Plugins that change the document they are handed are not modelled.
- Storage behaviour is deterministic in the model. Whether `Write` succeeds
  depends only on the path and the document type, and what `Read` does
  depends only on the path. The file system behind them is not modelled.
- `Path.GetFileName` is modelled as the part after the last `/`, `\` or
  `:`. Its exception for invalid path characters is not modelled.
- Tree children are held as values. Sharing a child node between trees, or
  changing a child after inserting it, is not reflected in the parent. A
  node can therefore never be its own descendant in the model.
- `ObservableCollection` change notifications and re-entrancy checks,
  `GetEnumerator`, `IsReadOnly` (always false) and `TreeExpand` (always
  throws `NotImplementedException`).
- The parameterless `Tree()` constructor is the one-argument constructor
  applied to `default(T)`.
- The data's own hash is a parameter, `dataHash`. A null `Data` hashing to 0
  is that parameter's business.
- The `Factories`, `Editors` and `Storages` getters: the model's fields are
  readable directly.
