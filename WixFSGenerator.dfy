/**
 * The WiX fragment generator of the developer tool: it walks a source
 * directory and emits, for every directory that keeps at least one file, a
 * Component (with a stable GUID) holding File elements, a ComponentRef in a
 * shared ComponentGroup, and nested Directory elements for subdirectories
 * that contributed something.
 */
module WixFSGenerator {
  import opened Xml
  import opened Guids
  import opened WixIds
  import opened Sequences

  /** A directory as listed on disk: its name, its file names and its subdirectories, in listing order. */
  datatype Dir = Dir(name: string, files: seq<string>, subdirs: seq<Dir>)

  /** The MD5 hash, a function of the bytes it is given. */
  type Md5 = seq<byte> -> Digest

  const WixNamespace: string := "http://schemas.microsoft.com/wix/2006/wi"

  /**
   * Path.Combine for a relative directory and a directory name: a '\' is
   * put between them unless the first is empty or already ends in a separator.
   */
  function Combine(path: string, name: string): (r: string)
    ensures path <= r
    ensures |path| + |name| <= |r| <= |path| + |name| + 1
    ensures r[|r| - |name|..] == name
  {
    if name == [] then path
    else if path == [] then name
    else if IsSeparator(path[|path| - 1]) then path + name
    else path + "\\" + name
  }

  // ---------------------------------------------------------------------
  // The elements the generator creates

  function FileNode(path: string, file: string): Node {
    Element("File", [Attr("Source", "$(var.SolutionDir)\\" + path + "\\" + file), Attr("Id", FileId(path, file))], [])
  }

  /** The File elements for `files`, in order. */
  function FileNodes(path: string, files: seq<string>): seq<Node> {
    if files == [] then [] else FileNodes(path, files[..|files| - 1]) + [FileNode(path, files[|files| - 1])]
  }

  function ComponentNode(path: string, files: seq<string>, baseComponent: string, md5: Md5): Node {
    Element("Component", [Attr("Id", baseComponent), Attr("Guid", ComponentGuid(baseComponent, md5))],
            FileNodes(path, files))
  }

  function ComponentRefNode(baseComponent: string): Node {
    Element("ComponentRef", [Attr("Id", baseComponent)], [])
  }

  function DirectoryNode(basePrefix: string, name: string, children: seq<Node>): Node {
    Element("Directory", [Attr("Id", basePrefix + "_" + name), Attr("Name", name)], children)
  }

  // ---------------------------------------------------------------------
  // What one call of AddDirectory contributes

  /**
   * The elements appended to the directory's node, the ComponentRefs
   * appended to the group, and the value AddDirectory returns.
   */
  datatype Emission = Emission(nodes: seq<Node>, refs: seq<Node>, added: bool)

  /** The contribution of directory `d`, found at relative path `path`. */
  function EmitDir(path: string, d: Dir, baseComponent: string, basePrefix: string, md5: Md5): Emission
    decreases d, 1
  {
    var files := KeptFiles(d.files);
    var own :=
      if |files| > 0 then
        Emission([ComponentNode(path, files, baseComponent, md5)], [ComponentRefNode(baseComponent)], true)
      else Emission([], [], false);
    var sub := EmitSubdirs(path, d.subdirs, baseComponent, basePrefix, md5);
    Emission(own.nodes + sub.nodes, own.refs + sub.refs, own.added || sub.added)
  }

  /** The contribution of the subdirectories `ds` of the directory at `path`, visited in order. */
  function EmitSubdirs(path: string, ds: seq<Dir>, baseComponent: string, basePrefix: string, md5: Md5): Emission
    decreases ds, 0
  {
    if ds == [] then Emission([], [], false)
    else
      var before := EmitSubdirs(path, ds[..|ds| - 1], baseComponent, basePrefix, md5);
      var child := ds[|ds| - 1];
      if IsForbiddenDirectory(child.name) then before
      else
        var e := EmitChild(path, child, baseComponent, basePrefix, md5);
        Emission(before.nodes + (if e.added then [DirectoryNode(basePrefix, child.name, e.nodes)] else []),
                 before.refs + e.refs,
                 before.added || e.added)
  }

  /** The recursive call for subdirectory `child`, with its path and names extended by the child's name. */
  function EmitChild(path: string, child: Dir, baseComponent: string, basePrefix: string, md5: Md5): Emission
    decreases child, 2
  {
    EmitDir(Combine(path, child.name), child, baseComponent + "_" + child.name, basePrefix + "_" + child.name, md5)
  }

  /** One more subdirectory visited: EmitSubdirs over a prefix one longer. */
  lemma EmitSubdirsStep(path: string, ds: seq<Dir>, j: nat, baseComponent: string, basePrefix: string, md5: Md5)
    requires j < |ds|
    ensures var before := EmitSubdirs(path, ds[..j], baseComponent, basePrefix, md5);
      var child := ds[j];
      var e := EmitChild(path, child, baseComponent, basePrefix, md5);
      EmitSubdirs(path, ds[..j + 1], baseComponent, basePrefix, md5) ==
        if IsForbiddenDirectory(child.name) then before
        else Emission(before.nodes + (if e.added then [DirectoryNode(basePrefix, child.name, e.nodes)] else []),
                      before.refs + e.refs, before.added || e.added)
  {
    assert ds[..j + 1][..j] == ds[..j];
  }

  /** The document Run saves, without its timestamp comment. */
  function WixDocument(name: string, e: Emission): Node {
    Element("Wix", [Attr("xmlns", WixNamespace)], [
      Element("Fragment", [], [Element("ComponentGroup", [Attr("Id", "Component_" + name)], e.refs)]),
      Element("Fragment", [], [Element("DirectoryRef", [Attr("Id", "Dir_" + name)], e.nodes)])
    ])
  }

  // ---------------------------------------------------------------------
  // The generator

  /**
   * The body of AddDirectory for a directory with kept files: builds the
   * Component with its stable GUID and one File per kept file, appends it
   * to `dirNode` and its ComponentRef to `componentGroup`.
   */
  method AddComponent(path: string, files: seq<string>, baseComponent: string,
                      dirNode: XElement, componentGroup: XElement, md5: Md5)
    requires dirNode != componentGroup
    modifies dirNode, componentGroup
    ensures dirNode.children == old(dirNode.children) + [ComponentNode(path, files, baseComponent, md5)]
    ensures componentGroup.children == old(componentGroup.children) + [ComponentRefNode(baseComponent)]
  {
    // create stable GUIDs
    var digest := md5(HashInput(baseComponent));
    var bytes := new byte[16](i requires 0 <= i < 16 => digest[i]);
    var byteIndex := VersionIndex;
    bytes[byteIndex] := 0x40 + bytes[byteIndex] % 0x10;
    assert bytes[..] == StampVersion(digest, VersionIndex);

    var filesComponent := new XElement("Component", [Attr("Id", baseComponent), Attr("Guid", GuidString(bytes[..]))]);
    var i := 0;
    while i < |files|
      modifies filesComponent
      invariant 0 <= i <= |files|
      invariant filesComponent.children == FileNodes(path, files[..i])
    {
      assert files[..i + 1][..i] == files[..i];
      filesComponent.Add(FileNode(path, files[i]));
      i := i + 1;
    }
    assert files[..i] == files;

    dirNode.Add(filesComponent.Value());
    componentGroup.Add(ComponentRefNode(baseComponent));
  }

  /**
   * Adds to `dirNode` the Component for the kept files of `d` and a Directory
   * element for each subdirectory that contributed something, and to
   * `componentGroup` a ComponentRef per Component; returns whether anything
   * was added.
   */
  method AddDirectory(path: string, d: Dir, baseComponent: string, basePrefix: string,
                      dirNode: XElement, componentGroup: XElement, md5: Md5) returns (didAdd: bool)
    requires dirNode != componentGroup
    modifies dirNode, componentGroup
    ensures var e := EmitDir(path, d, baseComponent, basePrefix, md5);
      && dirNode.children == old(dirNode.children) + e.nodes
      && componentGroup.children == old(componentGroup.children) + e.refs
      && didAdd == e.added
    decreases d, 3
  {
    didAdd := false;
    var files := KeptFiles(d.files);
    if |files| > 0 {
      AddComponent(path, files, baseComponent, dirNode, componentGroup, md5);
      didAdd := true;
    }
    ghost var nodes0, refs0 := dirNode.children, componentGroup.children;
    ghost var acc := Emission([], [], false);

    var j := 0;
    while j < |d.subdirs|
      invariant 0 <= j <= |d.subdirs|
      invariant acc == EmitSubdirs(path, d.subdirs[..j], baseComponent, basePrefix, md5)
      invariant dirNode.children == nodes0 + acc.nodes
      invariant componentGroup.children == refs0 + acc.refs
      invariant didAdd == (|files| > 0 || acc.added)
    {
      EmitSubdirsStep(path, d.subdirs, j, baseComponent, basePrefix, md5);
      if !IsForbiddenDirectory(d.subdirs[j].name) {
        ghost var e := EmitChild(path, d.subdirs[j], baseComponent, basePrefix, md5);
        ghost var dirNodes := if e.added then [DirectoryNode(basePrefix, d.subdirs[j].name, e.nodes)] else [];
        var childAdded := AddSubdirectory(path, d.subdirs[j], baseComponent, basePrefix, dirNode, componentGroup, md5);
        if childAdded {
          didAdd := true;
        }
        AppendAssoc(nodes0, acc.nodes, dirNodes);
        AppendAssoc(refs0, acc.refs, e.refs);
        acc := Emission(acc.nodes + dirNodes, acc.refs + e.refs, acc.added || e.added);
      }
      j := j + 1;
    }
    assert d.subdirs[..j] == d.subdirs;
    ghost var own := if |files| > 0 then [ComponentNode(path, files, baseComponent, md5)] else [];
    ghost var ownRefs := if |files| > 0 then [ComponentRefNode(baseComponent)] else [];
    AppendAssoc(old(dirNode.children), own, acc.nodes);
    AppendAssoc(old(componentGroup.children), ownRefs, acc.refs);
  }

  /**
   * One pass of AddDirectory's loop over subdirectories, for a subdirectory
   * that is not forbidden: a Directory element for `child` is built by the
   * recursive call and attached to `dirNode` only when that call added something.
   */
  method AddSubdirectory(path: string, child: Dir, baseComponent: string, basePrefix: string,
                         dirNode: XElement, componentGroup: XElement, md5: Md5) returns (childAdded: bool)
    requires dirNode != componentGroup
    modifies dirNode, componentGroup
    ensures var e := EmitChild(path, child, baseComponent, basePrefix, md5);
      && dirNode.children == old(dirNode.children) + (if e.added then [DirectoryNode(basePrefix, child.name, e.nodes)] else [])
      && componentGroup.children == old(componentGroup.children) + e.refs
      && childAdded == e.added
    decreases child, 4
  {
    ghost var e := EmitChild(path, child, baseComponent, basePrefix, md5);
    var dir := child.name;
    var xmlDir := new XElement("Directory", [Attr("Id", basePrefix + "_" + dir), Attr("Name", dir)]);
    childAdded := AddDirectory(Combine(path, dir), child, baseComponent + "_" + dir,
                               basePrefix + "_" + dir, xmlDir, componentGroup, md5);
    assert dirNode.children == old(dirNode.children);
    assert xmlDir.Value() == DirectoryNode(basePrefix, dir, e.nodes) && childAdded == e.added;
    if childAdded {
      dirNode.Add(xmlDir.Value());
    } else {
      assert dirNode.children == old(dirNode.children) + [];
    }
  }

  /**
   * The generator's entry point without its console dialogue, clock and file
   * output: `inputDir` is the directory to include and `tree` its listing,
   * `name` the prefix the user enters.
   */
  method Run(inputDir: string, name: string, tree: Dir, md5: Md5) returns (doc: Node)
    ensures doc == WixDocument(name, EmitDir(inputDir, tree, "Component_Generated_" + name, "Dir_Generated_" + name, md5))
  {
    var componentGroup := new XElement("ComponentGroup", [Attr("Id", "Component_" + name)]);
    var directoryRef := new XElement("DirectoryRef", [Attr("Id", "Dir_" + name)]);
    ghost var e := EmitDir(inputDir, tree, "Component_Generated_" + name, "Dir_Generated_" + name, md5);
    var _ := AddDirectory(inputDir, tree, "Component_Generated_" + name, "Dir_Generated_" + name,
                          directoryRef, componentGroup, md5);
    assert componentGroup.children == [] + e.refs == e.refs;
    assert directoryRef.children == [] + e.nodes == e.nodes;
    doc := Element("Wix", [Attr("xmlns", WixNamespace)], [
      Element("Fragment", [], [componentGroup.Value()]),
      Element("Fragment", [], [directoryRef.Value()])
    ]);
  }
}
