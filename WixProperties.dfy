/**
 * What the generator's output looks like for every directory tree: which
 * directories contribute, that no empty Directory element is emitted, how
 * elements are named, and that ComponentRefs match Components one to one.
 */
module WixProperties {
  import opened Xml
  import opened Guids
  import GuidProperties
  import opened WixIds
  import WixIdProperties
  import opened Sequences
  import opened WixFSGenerator

  // ---------------------------------------------------------------------
  // Reference definitions

  /** Some file of `d` itself is kept, or some subdirectory reached through allowed names has one. */
  predicate HasContent(d: Dir)
    decreases d
  {
    || (exists i :: 0 <= i < |d.files| && IsKeptFile(d.files[i]))
    || (exists i :: 0 <= i < |d.subdirs| && !IsForbiddenDirectory(d.subdirs[i].name) && HasContent(d.subdirs[i]))
  }

  /** Some directory of `ds` with an allowed name has content. */
  predicate SomeHasContent(ds: seq<Dir>) {
    exists i :: 0 <= i < |ds| && !IsForbiddenDirectory(ds[i].name) && HasContent(ds[i])
  }

  /** The element holds a Component somewhere in its subtree (itself included). */
  predicate ContainsComponent(n: Node) {
    n.tag == "Component" || exists i :: 0 <= i < |n.children| && ContainsComponent(n.children[i])
  }

  /** A File element with a Source and a well-formed Id, and no children. */
  predicate IsFileElement(n: Node) {
    && n.tag == "File" && n.children == []
    && |n.attrs| == 2 && n.attrs[0].name == "Source" && n.attrs[1].name == "Id"
    && FileIdPrefix <= n.attrs[1].value && AllWordChars(n.attrs[1].value)
    && |n.attrs[1].value| <= |FileIdPrefix| + MaxIdLength
  }

  /**
   * An element emitted under a directory whose component base is `bc` and
   * whose directory prefix is `bp`: either that directory's Component (Id
   * `bc`, its version-4 GUID, only File children), or a Directory for a
   * subdirectory `name` whose name is not forbidden (Id `bp_name`) that holds a Component and whose
   * own elements are well formed for `bc_name` and `bp_name`.
   */
  predicate WellFormed(n: Node, bc: string, bp: string, md5: Md5) {
    if n.tag == "Component" then
      && n.attrs == [Attr("Id", bc), Attr("Guid", ComponentGuid(bc, md5))]
      && IsVersion4Guid(n.attrs[1].value)
      && forall i :: 0 <= i < |n.children| ==> IsFileElement(n.children[i])
    else if n.tag == "Directory" then
      && |n.attrs| == 2 && n.attrs[1].name == "Name"
      && !IsForbiddenDirectory(n.attrs[1].value)
      && n.attrs[0] == Attr("Id", bp + "_" + n.attrs[1].value)
      && ContainsComponent(n)
      && forall i :: 0 <= i < |n.children| ==>
           WellFormed(n.children[i], bc + "_" + n.attrs[1].value, bp + "_" + n.attrs[1].value, md5)
    else false
  }

  /** Every element of `ns` is well formed for `bc` and `bp`. */
  predicate AllWellFormed(ns: seq<Node>, bc: string, bp: string, md5: Md5) {
    forall k :: 0 <= k < |ns| ==> WellFormed(ns[k], bc, bp, md5)
  }

  /** The Ids of the Components of `n`'s subtree, in document order. */
  function ComponentIds(n: Node): seq<string>
    decreases n, 1
  {
    (if n.tag == "Component" then [IdOf(n)] else []) + ComponentIdsOf(n.children)
  }

  function ComponentIdsOf(ns: seq<Node>): seq<string>
    decreases ns, 0
  {
    if ns == [] then [] else ComponentIdsOf(ns[..|ns| - 1]) + ComponentIds(ns[|ns| - 1])
  }

  /** Every element of `refs` is a ComponentRef. */
  predicate AllComponentRefs(refs: seq<Node>) {
    forall k :: 0 <= k < |refs| ==> refs[k].tag == "ComponentRef"
  }

  /** The Ids the ComponentRefs point at, in order. */
  function RefIds(refs: seq<Node>): seq<string> {
    if refs == [] then [] else RefIds(refs[..|refs| - 1]) + [IdOf(refs[|refs| - 1])]
  }

  // ---------------------------------------------------------------------
  // Files of a component

  /** A Component has one File child per kept file. */
  lemma {:induction false} FileNodesLength(path: string, files: seq<string>)
    ensures |FileNodes(path, files)| == |files|
  {
    if files != [] {
      FileNodesLength(path, files[..|files| - 1]);
    }
  }

  /** The `k`th File child is the element for the `k`th kept file: the listing order is kept. */
  lemma {:induction false} FileNodeAt(path: string, files: seq<string>, k: nat)
    requires k < |files|
    ensures |FileNodes(path, files)| == |files|
    ensures FileNodes(path, files)[k] == FileNode(path, files[k])
  {
    var init := files[..|files| - 1];
    FileNodesLength(path, files);
    if k < |init| {
      FileNodeAt(path, init, k);
    }
  }

  lemma FileNodeIsFileElement(path: string, file: string)
    ensures IsFileElement(FileNode(path, file))
  {
    FileIdShape(path, file);
  }

  lemma ComponentNodeWellFormed(path: string, files: seq<string>, bc: string, bp: string, md5: Md5)
    ensures WellFormed(ComponentNode(path, files, bc, md5), bc, bp, md5)
  {
    GuidProperties.ComponentGuidIsVersion4(bc, md5);
    FileNodesLength(path, files);
    forall k | 0 <= k < |files| ensures IsFileElement(FileNodes(path, files)[k]) {
      FileNodeAt(path, files, k);
      FileNodeIsFileElement(path, files[k]);
    }
  }

  // ---------------------------------------------------------------------
  // What AddDirectory returns

  /** AddDirectory returns true exactly when the directory has content. */
  lemma {:induction false} EmitDirAdded(path: string, d: Dir, bc: string, bp: string, md5: Md5)
    ensures EmitDir(path, d, bc, bp, md5).added <==> HasContent(d)
    decreases d, 1
  {
    var files := KeptFiles(d.files);
    assert |files| > 0 <==> exists i :: 0 <= i < |d.files| && IsKeptFile(d.files[i]) by {
      if |files| > 0 {
        assert files[0] in files;
        var i :| 0 <= i < |d.files| && d.files[i] == files[0];
      }
      if i :| 0 <= i < |d.files| && IsKeptFile(d.files[i]) {
        assert d.files[i] in files;
      }
    }
    EmitSubdirsAdded(path, d.subdirs, bc, bp, md5);
  }

  /** The subdirectory loop reports something added exactly when some allowed subdirectory has content. */
  lemma {:induction false} EmitSubdirsAdded(path: string, ds: seq<Dir>, bc: string, bp: string, md5: Md5)
    ensures EmitSubdirs(path, ds, bc, bp, md5).added <==> SomeHasContent(ds)
    decreases ds, 0
  {
    if ds != [] {
      var init, child := ds[..|ds| - 1], ds[|ds| - 1];
      var before := EmitSubdirs(path, init, bc, bp, md5);
      var e := EmitChild(path, child, bc, bp, md5);
      assert EmitSubdirs(path, ds, bc, bp, md5).added == (before.added || (!IsForbiddenDirectory(child.name) && e.added));
      EmitSubdirsAdded(path, init, bc, bp, md5);
      EmitDirAdded(Combine(path, child.name), child, bc + "_" + child.name, bp + "_" + child.name, md5);
      SomeHasContentSnoc(ds);
    }
  }

  lemma SomeHasContentSnoc(ds: seq<Dir>)
    requires ds != []
    ensures var child := ds[|ds| - 1];
      SomeHasContent(ds) <==> SomeHasContent(ds[..|ds| - 1]) || (!IsForbiddenDirectory(child.name) && HasContent(child))
  {
    var init := ds[..|ds| - 1];
    if SomeHasContent(init) {
      var i :| 0 <= i < |init| && !IsForbiddenDirectory(init[i].name) && HasContent(init[i]);
      assert ds[i] == init[i];
    }
    if SomeHasContent(ds) {
      var i :| 0 <= i < |ds| && !IsForbiddenDirectory(ds[i].name) && HasContent(ds[i]);
      if i < |init| {
        assert init[i] == ds[i];
      }
    }
  }

  /** AddDirectory adds elements and ComponentRefs exactly when it returns true. */
  lemma {:induction false} EmitDirShape(path: string, d: Dir, bc: string, bp: string, md5: Md5)
    ensures var e := EmitDir(path, d, bc, bp, md5);
      (e.added <==> |e.nodes| > 0) && (e.added <==> |e.refs| > 0)
    decreases d, 1
  {
    EmitSubdirsShape(path, d.subdirs, bc, bp, md5);
  }

  lemma {:induction false} EmitSubdirsShape(path: string, ds: seq<Dir>, bc: string, bp: string, md5: Md5)
    ensures var e := EmitSubdirs(path, ds, bc, bp, md5);
      (e.added <==> |e.nodes| > 0) && (e.added <==> |e.refs| > 0)
    decreases ds, 0
  {
    if ds != [] {
      var child := ds[|ds| - 1];
      EmitSubdirsShape(path, ds[..|ds| - 1], bc, bp, md5);
      EmitDirShape(Combine(path, child.name), child, bc + "_" + child.name, bp + "_" + child.name, md5);
    }
  }

  // ---------------------------------------------------------------------
  // Shape and naming of the emitted elements

  lemma WellFormedContainsComponent(n: Node, bc: string, bp: string, md5: Md5)
    requires WellFormed(n, bc, bp, md5)
    ensures ContainsComponent(n)
  {
  }

  /**
   * Every element AddDirectory attaches is well formed: no Directory
   * element is emitted without a Component below it, and Ids follow the
   * naming scheme.
   */
  lemma {:induction false} EmitDirWellFormed(path: string, d: Dir, bc: string, bp: string, md5: Md5)
    ensures AllWellFormed(EmitDir(path, d, bc, bp, md5).nodes, bc, bp, md5)
    decreases d, 1
  {
    var files := KeptFiles(d.files);
    var sub := EmitSubdirs(path, d.subdirs, bc, bp, md5);
    EmitSubdirsWellFormed(path, d.subdirs, bc, bp, md5);
    var own := if |files| > 0 then [ComponentNode(path, files, bc, md5)] else [];
    if |files| > 0 {
      ComponentNodeWellFormed(path, files, bc, bp, md5);
    }
    assert AllWellFormed(own, bc, bp, md5);
    AllWellFormedAppend(own, sub.nodes, bc, bp, md5);
  }

  lemma AllWellFormedAppend(a: seq<Node>, b: seq<Node>, bc: string, bp: string, md5: Md5)
    requires AllWellFormed(a, bc, bp, md5) && AllWellFormed(b, bc, bp, md5)
    ensures AllWellFormed(a + b, bc, bp, md5)
  {
    forall k | 0 <= k < |a + b| ensures WellFormed((a + b)[k], bc, bp, md5) {
      if k >= |a| {
        assert (a + b)[k] == b[k - |a|];
      }
    }
  }

  lemma {:induction false} EmitSubdirsWellFormed(path: string, ds: seq<Dir>, bc: string, bp: string, md5: Md5)
    ensures AllWellFormed(EmitSubdirs(path, ds, bc, bp, md5).nodes, bc, bp, md5)
    decreases ds, 0
  {
    if ds != [] {
      var init, child := ds[..|ds| - 1], ds[|ds| - 1];
      var before := EmitSubdirs(path, init, bc, bp, md5);
      EmitSubdirsWellFormed(path, init, bc, bp, md5);
      if !IsForbiddenDirectory(child.name) {
        var name := child.name;
        var c := EmitDir(Combine(path, name), child, bc + "_" + name, bp + "_" + name, md5);
        if c.added {
          EmitDirWellFormed(Combine(path, name), child, bc + "_" + name, bp + "_" + name, md5);
          EmitDirShape(Combine(path, name), child, bc + "_" + name, bp + "_" + name, md5);
          var n := DirectoryNode(bp, name, c.nodes);
          WellFormedContainsComponent(c.nodes[0], bc + "_" + name, bp + "_" + name, md5);
          assert n.children[0] == c.nodes[0];
          assert WellFormed(n, bc, bp, md5);
          assert EmitSubdirs(path, ds, bc, bp, md5).nodes == before.nodes + [n];
        }
      }
    }
  }

  // ---------------------------------------------------------------------
  // Components and ComponentRefs

  lemma {:induction false} ComponentIdsOfAppend(a: seq<Node>, b: seq<Node>)
    ensures ComponentIdsOf(a + b) == ComponentIdsOf(a) + ComponentIdsOf(b)
    decreases |b|
  {
    if b == [] {
      assert a + b == a;
    } else {
      var init := b[..|b| - 1];
      assert (a + b)[..|a + b| - 1] == a + init;
      assert (a + b)[|a + b| - 1] == b[|b| - 1];
      ComponentIdsOfAppend(a, init);
      AppendAssoc(ComponentIdsOf(a), ComponentIdsOf(init), ComponentIds(b[|b| - 1]));
    }
  }

  lemma {:induction false} RefIdsAppend(a: seq<Node>, b: seq<Node>)
    ensures RefIds(a + b) == RefIds(a) + RefIds(b)
    decreases |b|
  {
    if b == [] {
      assert a + b == a;
    } else {
      var init := b[..|b| - 1];
      assert (a + b)[..|a + b| - 1] == a + init;
      assert (a + b)[|a + b| - 1] == b[|b| - 1];
      RefIdsAppend(a, init);
      AppendAssoc(RefIds(a), RefIds(init), [IdOf(b[|b| - 1])]);
    }
  }

  /** File elements hold no Components. */
  lemma {:induction false} NoComponentsAmongFiles(path: string, files: seq<string>)
    ensures ComponentIdsOf(FileNodes(path, files)) == []
  {
    if files != [] {
      NoComponentsAmongFiles(path, files[..|files| - 1]);
      assert ComponentIds(FileNode(path, files[|files| - 1])) == [];
    }
  }

  /** A directory's own Component is the one its ComponentRef names. */
  lemma OwnComponentIds(path: string, files: seq<string>, bc: string, md5: Md5)
    ensures ComponentIdsOf([ComponentNode(path, files, bc, md5)]) == [bc] == RefIds([ComponentRefNode(bc)])
  {
    var comp := ComponentNode(path, files, bc, md5);
    NoComponentsAmongFiles(path, files);
    SingleComponentIds(comp, bc);
    assert [ComponentRefNode(bc)][..0] == [];
  }

  lemma SingleComponentIds(n: Node, bc: string)
    requires n.tag == "Component" && |n.attrs| > 0 && n.attrs[0] == Attr("Id", bc)
    requires ComponentIdsOf(n.children) == []
    ensures ComponentIdsOf([n]) == [bc]
  {
    assert ComponentIds(n) == [bc] + [];
    assert [n][..0] == [];
  }

  lemma AllComponentRefsAppend(a: seq<Node>, b: seq<Node>)
    requires AllComponentRefs(a) && AllComponentRefs(b)
    ensures AllComponentRefs(a + b)
  {
    forall k | 0 <= k < |a + b| ensures (a + b)[k].tag == "ComponentRef" {
      if k >= |a| {
        assert (a + b)[k] == b[k - |a|];
      }
    }
  }

  /**
   * One ComponentRef per Component: the group receives exactly the Ids of
   * the emitted Components, in document order, and nothing but ComponentRefs.
   */
  lemma {:induction false} EmitDirRefsMatch(path: string, d: Dir, bc: string, bp: string, md5: Md5)
    ensures var e := EmitDir(path, d, bc, bp, md5);
      RefIds(e.refs) == ComponentIdsOf(e.nodes) && AllComponentRefs(e.refs)
    decreases d, 1
  {
    var files := KeptFiles(d.files);
    var sub := EmitSubdirs(path, d.subdirs, bc, bp, md5);
    EmitSubdirsRefsMatch(path, d.subdirs, bc, bp, md5);
    var ownNodes := if |files| > 0 then [ComponentNode(path, files, bc, md5)] else [];
    var ownRefs := if |files| > 0 then [ComponentRefNode(bc)] else [];
    if |files| > 0 {
      OwnComponentIds(path, files, bc, md5);
    }
    assert ComponentIdsOf(ownNodes) == RefIds(ownRefs);
    assert AllComponentRefs(ownRefs);
    ComponentIdsOfAppend(ownNodes, sub.nodes);
    RefIdsAppend(ownRefs, sub.refs);
    AllComponentRefsAppend(ownRefs, sub.refs);
  }

  lemma {:induction false} EmitSubdirsRefsMatch(path: string, ds: seq<Dir>, bc: string, bp: string, md5: Md5)
    ensures var e := EmitSubdirs(path, ds, bc, bp, md5);
      RefIds(e.refs) == ComponentIdsOf(e.nodes) && AllComponentRefs(e.refs)
    decreases ds, 0
  {
    if ds != [] {
      var init, child := ds[..|ds| - 1], ds[|ds| - 1];
      var before := EmitSubdirs(path, init, bc, bp, md5);
      EmitSubdirsRefsMatch(path, init, bc, bp, md5);
      if !IsForbiddenDirectory(child.name) {
        var name := child.name;
        var c := EmitChild(path, child, bc, bp, md5);
        EmitDirRefsMatch(Combine(path, name), child, bc + "_" + name, bp + "_" + name, md5);
        EmitDirShape(Combine(path, name), child, bc + "_" + name, bp + "_" + name, md5);
        var dirNodes := if c.added then [DirectoryNode(bp, name, c.nodes)] else [];
        assert ComponentIdsOf(dirNodes) == ComponentIdsOf(c.nodes) by {
          if c.added {
            var n := DirectoryNode(bp, name, c.nodes);
            assert ComponentIds(n) == [] + ComponentIdsOf(c.nodes);
            assert [n][..0] == [];
          }
        }
        RefIdsAppend(before.refs, c.refs);
        ComponentIdsOfAppend(before.nodes, dirNodes);
        AllComponentRefsAppend(before.refs, c.refs);
      }
    }
  }

  // ---------------------------------------------------------------------
  // The saved document

  /**
   * In the document Run produces, the ComponentGroup lists exactly the
   * Components found under the DirectoryRef, in order, every element under
   * the DirectoryRef is well formed for the "Generated" names, and both are
   * empty exactly when no included file exists anywhere in the tree.
   */
  lemma WixDocumentConsistent(inputDir: string, name: string, tree: Dir, md5: Md5)
    ensures var bc, bp := "Component_Generated_" + name, "Dir_Generated_" + name;
      var doc := WixDocument(name, EmitDir(inputDir, tree, bc, bp, md5));
      var group, dirRef := doc.children[0].children[0], doc.children[1].children[0];
      && group.tag == "ComponentGroup" && IdOf(group) == "Component_" + name
      && dirRef.tag == "DirectoryRef" && IdOf(dirRef) == "Dir_" + name
      && RefIds(group.children) == ComponentIdsOf(dirRef.children)
      && AllComponentRefs(group.children)
      && AllWellFormed(dirRef.children, bc, bp, md5)
      && (|group.children| > 0 <==> HasContent(tree))
      && (|dirRef.children| > 0 <==> HasContent(tree))
  {
    var bc, bp := "Component_Generated_" + name, "Dir_Generated_" + name;
    EmitDirRefsMatch(inputDir, tree, bc, bp, md5);
    EmitDirWellFormed(inputDir, tree, bc, bp, md5);
    EmitDirShape(inputDir, tree, bc, bp, md5);
    EmitDirAdded(inputDir, tree, bc, bp, md5);
  }
}
