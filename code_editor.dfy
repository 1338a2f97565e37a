/**
 * The editor page: the file tree read from the sandbox's filesystem, the
 * language and tab type chosen from a file name's suffix, and the tab bar
 * (open, select, close, edit and save tabs).
 *
 * The page's React state `tabs` / `activeTab` is the value `Editor`; each
 * handler is a function from the old state to the new one.  The directory
 * reads of `buildFileTree` are a snapshot `FsEntry` passed in.
 */
module CodeEditor {
  import opened Options
  import opened Lists
  import opened Strings

  /* ---------------------------------------------------------------- */
  /* Suffixes                                                          */
  /* ---------------------------------------------------------------- */

  /** The suffixes the editor tests are told apart by their last three characters. */
  lemma SuffixesExclusive(f: string)
    ensures EndsWith(f, ".ts") ==> !EndsWith(f, ".tsx") && !EndsWith(f, ".js") && !EndsWith(f, ".jsx")
    ensures EndsWith(f, ".tsx") ==> !EndsWith(f, ".js") && !EndsWith(f, ".jsx")
    ensures EndsWith(f, ".js") ==> !EndsWith(f, ".jsx")
    ensures EndsWith(f, ".json") ==>
      !EndsWith(f, ".ts") && !EndsWith(f, ".tsx") && !EndsWith(f, ".js") && !EndsWith(f, ".jsx")
    ensures EndsWith(f, ".graphql") ==>
      !EndsWith(f, ".ts") && !EndsWith(f, ".tsx") && !EndsWith(f, ".js") && !EndsWith(f, ".jsx")
      && !EndsWith(f, ".json")
    ensures EndsWith(f, ".md") ==>
      !EndsWith(f, ".ts") && !EndsWith(f, ".tsx") && !EndsWith(f, ".js") && !EndsWith(f, ".jsx")
      && !EndsWith(f, ".json") && !EndsWith(f, ".graphql")
    ensures EndsWith(f, ".sql") ==>
      !EndsWith(f, ".ts") && !EndsWith(f, ".tsx") && !EndsWith(f, ".js") && !EndsWith(f, ".jsx")
      && !EndsWith(f, ".json") && !EndsWith(f, ".graphql") && !EndsWith(f, ".md")
  {
    if EndsWith(f, ".ts") { EndsWithAt(f, ".ts", 0); EndsWithAt(f, ".ts", 1); }
    if EndsWith(f, ".tsx") { EndsWithAt(f, ".tsx", 0); EndsWithAt(f, ".tsx", 2); }
    if EndsWith(f, ".js") { EndsWithAt(f, ".js", 0); EndsWithAt(f, ".js", 1); }
    if EndsWith(f, ".jsx") { EndsWithAt(f, ".jsx", 0); EndsWithAt(f, ".jsx", 2); }
    if EndsWith(f, ".json") { EndsWithAt(f, ".json", 0); }
    if EndsWith(f, ".graphql") { EndsWithAt(f, ".graphql", 0); EndsWithAt(f, ".graphql", 2); }
    if EndsWith(f, ".md") { EndsWithAt(f, ".md", 0); }
    if EndsWith(f, ".sql") { EndsWithAt(f, ".sql", 0); EndsWithAt(f, ".sql", 2); }
  }

  /** `inferLanguage`: the Monaco language for a file name. */
  function InferLanguage(fileName: string): (r: string)
    ensures r in {"typescript", "javascript", "json", "graphql", "markdown", "sql"}
    ensures r == "typescript" <==> EndsWith(fileName, ".ts") || EndsWith(fileName, ".tsx")
    ensures r == "json" <==> EndsWith(fileName, ".json")
    ensures r == "graphql" <==> EndsWith(fileName, ".graphql")
    ensures r == "markdown" <==> EndsWith(fileName, ".md")
    ensures r == "sql" <==> EndsWith(fileName, ".sql")
    ensures r == "javascript" <==>
      (EndsWith(fileName, ".js") || EndsWith(fileName, ".jsx")
       || !(EndsWith(fileName, ".ts") || EndsWith(fileName, ".tsx") || EndsWith(fileName, ".json")
            || EndsWith(fileName, ".graphql") || EndsWith(fileName, ".md") || EndsWith(fileName, ".sql")))
  {
    SuffixesExclusive(fileName);
    if EndsWith(fileName, ".ts") || EndsWith(fileName, ".tsx") then "typescript"
    else if EndsWith(fileName, ".js") || EndsWith(fileName, ".jsx") then "javascript"
    else if EndsWith(fileName, ".json") then "json"
    else if EndsWith(fileName, ".graphql") then "graphql"
    else if EndsWith(fileName, ".md") then "markdown"
    else if EndsWith(fileName, ".sql") then "sql"
    else "javascript"
  }

  /** `getFileType`: the type of a tab opened from the file tree. */
  function GetFileType(fileName: string): (r: string)
    ensures r in {"json", "graphql", "markdown", "sql", "code"}
    ensures r == "json" <==> EndsWith(fileName, ".json")
    ensures r == "graphql" <==> EndsWith(fileName, ".graphql")
    ensures r == "markdown" <==> EndsWith(fileName, ".md")
    ensures r == "sql" <==> EndsWith(fileName, ".sql")
    ensures r == "code" <==>
      !(EndsWith(fileName, ".json") || EndsWith(fileName, ".graphql") || EndsWith(fileName, ".md")
        || EndsWith(fileName, ".sql"))
  {
    SuffixesExclusive(fileName);
    if EndsWith(fileName, ".json") then "json"
    else if EndsWith(fileName, ".graphql") then "graphql"
    else if EndsWith(fileName, ".md") then "markdown"
    else if EndsWith(fileName, ".sql") then "sql"
    else "code"
  }

  /** A tab type and the editor language agree on every data format both know. */
  lemma FileTypeAgreesWithLanguage(fileName: string)
    ensures GetFileType(fileName) != "code" ==> GetFileType(fileName) == InferLanguage(fileName)
    ensures GetFileType(fileName) == "code" ==> InferLanguage(fileName) in {"typescript", "javascript"}
  {
  }

  /* ---------------------------------------------------------------- */
  /* Tabs                                                              */
  /* ---------------------------------------------------------------- */

  /** `Tab`; `kind` is the `type` field, a string because `getFileType` produces
      values ("json", "markdown", "sql") outside the declared union. */
  datatype Tab = Tab(id: string, title: string, kind: string, content: string)

  /** `File` as handed to `handleSave` / `handleLoad`. */
  datatype EditorFile = EditorFile(id: string, name: string, content: string, kind: string)

  /** The tab bar's state: `tabs` and `activeTab` (`null` is `None`). */
  datatype Editor = Editor(tabs: seq<Tab>, activeTab: Option<string>)

  const ReadmeContent: string :=
    "# My App\n\nThis is a sample React application.\n\n## Getting Started\n\nTo run this app:\n\n"
    + "1. Clone the repository\n2. Run `npm install`\n3. Run `npm start`\n\nEnjoy coding!\n"

  /** The initial state: one README tab with id "1", which is active (`tabs[0]?.id || null`). */
  const InitialEditor: Editor := Editor([Tab("1", "README.md", "code", ReadmeContent)], Some("1"))

  predicate UniqueIds(tabs: seq<Tab>)
  {
    forall i, j :: 0 <= i < j < |tabs| ==> tabs[i].id != tabs[j].id
  }

  predicate HasId(tabs: seq<Tab>, id: string)
  {
    exists i :: 0 <= i < |tabs| && tabs[i].id == id
  }

  /** The active tab, when set, names a tab that is open. */
  predicate ActiveIsOpen(e: Editor)
  {
    e.activeTab.Some? ==> HasId(e.tabs, e.activeTab.value)
  }

  /** The editor's invariant: tab ids are unique and the active tab is open. */
  predicate Valid(e: Editor)
  {
    UniqueIds(e.tabs) && ActiveIsOpen(e)
  }

  lemma InitialEditorValid()
    ensures Valid(InitialEditor)
    ensures InitialEditor.activeTab == Some("1")
  {
    assert InitialEditor.tabs[0].id == "1";
  }

  /** `tabs.find(t => t.id === id)`: the first tab with that id. */
  function FindById(tabs: seq<Tab>, id: string): (r: Option<Tab>)
    ensures r.None? <==> !HasId(tabs, id)
    ensures r.Some? ==> r.value in tabs && r.value.id == id
  {
    if tabs == [] then None
    else if tabs[0].id == id then Some(tabs[0])
    else
      assert forall i :: 0 < i < |tabs| ==> tabs[1..][i - 1] == tabs[i];
      FindById(tabs[1..], id)
  }

  /** `tabs.find(t => t.title === title)`: the index of the first tab with that title. */
  function FindByTitle(tabs: seq<Tab>, title: string): (r: Option<nat>)
    ensures r.None? <==> forall i :: 0 <= i < |tabs| ==> tabs[i].title != title
    ensures r.Some? ==> r.value < |tabs| && tabs[r.value].title == title
    ensures r.Some? ==> forall i :: 0 <= i < r.value ==> tabs[i].title != title
  {
    if tabs == [] then None
    else if tabs[0].title == title then Some(0)
    else
      var rest := FindByTitle(tabs[1..], title);
      assert forall i :: 0 < i < |tabs| ==> tabs[1..][i - 1] == tabs[i];
      if rest.None? then None else Some(rest.value + 1)
  }

  /** The tab the editor shows: `tabs.find(tab => tab.id === activeTab)`. */
  function ActiveTabData(e: Editor): (r: Option<Tab>)
    ensures r.Some? ==> e.activeTab == Some(r.value.id) && r.value in e.tabs
    ensures ActiveIsOpen(e) && e.activeTab.Some? ==> r.Some?
  {
    if e.activeTab.None? then None else FindById(e.tabs, e.activeTab.value)
  }

  /** With unique ids the tab found by id is the one at that id's position. */
  lemma {:induction false} FindByIdUnique(tabs: seq<Tab>, i: nat)
    requires UniqueIds(tabs) && i < |tabs|
    ensures FindById(tabs, tabs[i].id) == Some(tabs[i])
  {
    if i > 0 {
      assert tabs[0].id != tabs[i].id;
      assert tabs[1..][i - 1] == tabs[i];
      FindByIdUnique(tabs[1..], i - 1);
    }
  }

  /** `closeTab`: drop every tab with that id; if it was active, activate the last
      remaining tab (an id "" is falsy, so `?.id || null` gives `null`). */
  function CloseTab(e: Editor, tabId: string): (r: Editor)
    ensures forall t :: t in r.tabs <==> t in e.tabs && t.id != tabId
    ensures IsSubsequence(r.tabs, e.tabs)
    ensures e.activeTab != Some(tabId) ==> r.activeTab == e.activeTab
    ensures e.activeTab == Some(tabId) && r.tabs == [] ==> r.activeTab == None
    ensures e.activeTab == Some(tabId) && r.tabs != [] ==>
      r.activeTab == (if r.tabs[|r.tabs| - 1].id == "" then None else Some(r.tabs[|r.tabs| - 1].id))
    ensures r.activeTab != Some(tabId)
  {
    var newTabs := Filter(e.tabs, (t: Tab) => t.id != tabId);
    FilterIsSubsequence(e.tabs, (t: Tab) => t.id != tabId);
    if e.activeTab == Some(tabId) then
      var last := if newTabs == [] then None else Some(newTabs[|newTabs| - 1].id);
      Editor(newTabs, if last.None? || last.value == "" then None else last)
    else
      Editor(newTabs, e.activeTab)
  }

  /** A subsequence of a list with unique ids has unique ids. */
  lemma {:induction false} SubsequenceUniqueIds(a: seq<Tab>, b: seq<Tab>)
    requires IsSubsequence(a, b) && UniqueIds(b)
    ensures UniqueIds(a)
    decreases |b|
  {
    if a != [] && b != [] {
      assert UniqueIds(b[1..]) by {
        forall i, j | 0 <= i < j < |b[1..]| ensures b[1..][i].id != b[1..][j].id {
          assert b[1..][i] == b[i + 1] && b[1..][j] == b[j + 1];
        }
      }
      if a[0] == b[0] {
        SubsequenceUniqueIds(a[1..], b[1..]);
        SubsequenceIn(a[1..], b[1..]);
        forall j | 0 < j < |a| ensures a[0].id != a[j].id {
          assert a[1..][j - 1] == a[j];
          assert a[j] in a[1..];
          var k :| 0 <= k < |b[1..]| && b[1..][k] == a[j];
          assert b[k + 1] == a[j];
        }
        forall i, j | 0 <= i < j < |a| ensures a[i].id != a[j].id {
          if i > 0 {
            assert a[1..][i - 1] == a[i] && a[1..][j - 1] == a[j];
          }
        }
      } else {
        SubsequenceUniqueIds(a, b[1..]);
      }
    }
  }

  /** Every element of a subsequence is an element of the whole. */
  lemma {:induction false} SubsequenceIn<T>(a: seq<T>, b: seq<T>)
    requires IsSubsequence(a, b)
    ensures forall x :: x in a ==> x in b
    decreases |b|
  {
    if a != [] && b != [] {
      if a[0] == b[0] {
        SubsequenceIn(a[1..], b[1..]);
        assert a == [a[0]] + a[1..];
      } else {
        SubsequenceIn(a, b[1..]);
      }
    }
  }

  /** Closing a tab keeps the editor's invariant. */
  lemma CloseTabValid(e: Editor, tabId: string)
    requires Valid(e)
    ensures Valid(CloseTab(e, tabId))
  {
    var r := CloseTab(e, tabId);
    SubsequenceUniqueIds(r.tabs, e.tabs);
    if e.activeTab.Some? && e.activeTab != Some(tabId) {
      var i :| 0 <= i < |e.tabs| && e.tabs[i].id == e.activeTab.value;
      assert e.tabs[i] in r.tabs;
    }
    if r.activeTab.Some? && e.activeTab == Some(tabId) {
      assert r.tabs[|r.tabs| - 1].id == r.activeTab.value;
    }
  }

  /** `content || ""` for a node from the tree (a file's content may be absent). */
  function ContentOrEmpty(content: Option<string>): (r: string)
    ensures content.Some? ==> r == content.value
    ensures content.None? ==> r == ""
  {
    if content.Some? then content.value else ""
  }

  /**
   * `handleFileSelect`: folders are ignored; a file whose name is the title of
   * an open tab activates the first such tab; any other file opens a new tab
   * with id `freshId` (`generateId()`) at the end and activates it.
   */
  function HandleFileSelect(e: Editor, node: FileNode, freshId: string): (r: Editor)
    ensures node.FolderNode? ==> r == e
    ensures node.FileLeaf? && FindByTitle(e.tabs, node.name).Some? ==>
      r.tabs == e.tabs && r.activeTab == Some(e.tabs[FindByTitle(e.tabs, node.name).value].id)
    ensures node.FileLeaf? && FindByTitle(e.tabs, node.name).None? ==>
      |r.tabs| == |e.tabs| + 1 && r.tabs[..|e.tabs|] == e.tabs
      && r.tabs[|e.tabs|] == Tab(freshId, node.name, GetFileType(node.name), ContentOrEmpty(node.content))
      && r.activeTab == Some(freshId)
  {
    match node
    case FolderNode(_, _, _) => e
    case FileLeaf(_, name, content) =>
      match FindByTitle(e.tabs, name)
      case Some(i) => Editor(e.tabs, Some(e.tabs[i].id))
      case None =>
        var newTab := Tab(freshId, name, GetFileType(name), ContentOrEmpty(content));
        assert (e.tabs + [newTab])[..|e.tabs|] == e.tabs;
        Editor(e.tabs + [newTab], Some(freshId))
  }

  /** Appending a tab whose id is new keeps the ids unique. */
  lemma AppendFreshUnique(tabs: seq<Tab>, t: Tab)
    requires UniqueIds(tabs) && !HasId(tabs, t.id)
    ensures UniqueIds(tabs + [t])
  {
  }

  /**
   * Selecting a file keeps the invariant (given a fresh id) and the editor then
   * shows a tab titled with the file's name.
   */
  lemma FileSelectShowsFile(e: Editor, node: FileNode, freshId: string)
    requires Valid(e) && !HasId(e.tabs, freshId) && node.FileLeaf?
    ensures Valid(HandleFileSelect(e, node, freshId))
    ensures ActiveTabData(HandleFileSelect(e, node, freshId)).Some?
    ensures ActiveTabData(HandleFileSelect(e, node, freshId)).value.title == node.name
  {
    var r := HandleFileSelect(e, node, freshId);
    match FindByTitle(e.tabs, node.name)
    case Some(i) =>
      FindByIdUnique(e.tabs, i);
    case None =>
      var t := Tab(freshId, node.name, GetFileType(node.name), ContentOrEmpty(node.content));
      AppendFreshUnique(e.tabs, t);
      assert r.tabs == e.tabs + [t];
      FindByIdUnique(r.tabs, |e.tabs|);
      if e.activeTab.Some? {
        var k :| 0 <= k < |e.tabs| && e.tabs[k].id == e.activeTab.value;
        assert r.tabs[k] == e.tabs[k];
      }
  }

  /** Selecting a file twice opens it once: the second selection only activates its tab. */
  lemma FileSelectTwiceOpensOnce(e: Editor, node: FileNode, id1: string, id2: string)
    ensures |HandleFileSelect(HandleFileSelect(e, node, id1), node, id2).tabs|
      == |HandleFileSelect(e, node, id1).tabs|
  {
    if node.FileLeaf? {
      var r := HandleFileSelect(e, node, id1);
      if FindByTitle(e.tabs, node.name).None? {
        assert r.tabs[|e.tabs|].title == node.name;
      }
    }
  }

  /** `handleLoad`: open a loaded file as a new tab with id `freshId` and activate it. */
  function HandleLoad(e: Editor, file: EditorFile, freshId: string): (r: Editor)
    ensures |r.tabs| == |e.tabs| + 1 && r.tabs[..|e.tabs|] == e.tabs
    ensures r.tabs[|e.tabs|] == Tab(freshId, file.name, file.kind, file.content)
    ensures r.activeTab == Some(freshId)
  {
    var t := Tab(freshId, file.name, file.kind, file.content);
    assert (e.tabs + [t])[..|e.tabs|] == e.tabs;
    Editor(e.tabs + [t], Some(freshId))
  }

  /** Loading a file with a fresh id keeps the invariant and the editor then shows that file. */
  lemma LoadShowsFile(e: Editor, file: EditorFile, freshId: string)
    requires Valid(e) && !HasId(e.tabs, freshId)
    ensures Valid(HandleLoad(e, file, freshId))
    ensures ActiveTabData(HandleLoad(e, file, freshId)) == Some(Tab(freshId, file.name, file.kind, file.content))
  {
    var t := Tab(freshId, file.name, file.kind, file.content);
    var r := HandleLoad(e, file, freshId);
    assert r.tabs == e.tabs + [t];
    AppendFreshUnique(e.tabs, t);
    FindByIdAppend(e.tabs, t);
    if e.activeTab.Some? {
      var k :| 0 <= k < |e.tabs| && e.tabs[k].id == e.activeTab.value;
      assert r.tabs[k] == e.tabs[k];
    }
  }

  lemma {:induction false} FindByIdAppend(tabs: seq<Tab>, t: Tab)
    requires !HasId(tabs, t.id)
    ensures FindById(tabs + [t], t.id) == Some(t)
  {
    if tabs != [] {
      assert (tabs + [t])[1..] == tabs[1..] + [t];
      assert !HasId(tabs[1..], t.id) by {
        forall i | 0 <= i < |tabs[1..]| ensures tabs[1..][i].id != t.id {
          assert tabs[1..][i] == tabs[i + 1];
        }
      }
      FindByIdAppend(tabs[1..], t);
    }
  }

  /** `handleTabContentChange`: set the content of the tabs with that id. */
  function HandleTabContentChange(e: Editor, tabId: string, newCode: string): (r: Editor)
    ensures |r.tabs| == |e.tabs| && r.activeTab == e.activeTab
    ensures forall i :: 0 <= i < |e.tabs| ==>
      r.tabs[i].id == e.tabs[i].id && r.tabs[i].title == e.tabs[i].title && r.tabs[i].kind == e.tabs[i].kind
    ensures forall i :: 0 <= i < |e.tabs| && e.tabs[i].id != tabId ==> r.tabs[i] == e.tabs[i]
    ensures forall i :: 0 <= i < |e.tabs| && e.tabs[i].id == tabId ==> r.tabs[i].content == newCode
  {
    Editor(seq(|e.tabs|, i requires 0 <= i < |e.tabs| =>
                 if e.tabs[i].id == tabId then e.tabs[i].(content := newCode) else e.tabs[i]),
           e.activeTab)
  }

  /** Editing the active tab changes what the editor shows to the new code and keeps the invariant. */
  lemma EditActiveTab(e: Editor, newCode: string)
    requires Valid(e) && e.activeTab.Some?
    ensures Valid(HandleTabContentChange(e, e.activeTab.value, newCode))
    ensures ActiveTabData(HandleTabContentChange(e, e.activeTab.value, newCode)).Some?
    ensures ActiveTabData(HandleTabContentChange(e, e.activeTab.value, newCode)).value.content == newCode
  {
    var r := HandleTabContentChange(e, e.activeTab.value, newCode);
    var k :| 0 <= k < |e.tabs| && e.tabs[k].id == e.activeTab.value;
    assert r.tabs[k].id == e.activeTab.value;
    FindByIdUnique(r.tabs, k);
  }

  /* ---------------------------------------------------------------- */
  /* Saving                                                            */
  /* ---------------------------------------------------------------- */

  /** The sandbox path a file is saved to: an absolute name as is, else under "/src/". */
  function SavePath(name: string): (r: string)
    ensures StartsWith(r, "/") && EndsWith(r, name)
    ensures StartsWith(name, "/") ==> r == name
    ensures !StartsWith(name, "/") ==> r == "/src/" + name
  {
    if StartsWith(name, "/") then name
    else
      assert ("/src/" + name)[..1] == "/";
      "/src/" + name
  }

  /** Saving a saved path again writes to the same place. */
  lemma SavePathIdempotent(name: string)
    ensures SavePath(SavePath(name)) == SavePath(name)
  {
  }

  /** A write handed to the sandbox: `writeFile(path, content)`. */
  datatype Write = Write(path: string, content: string)

  /**
   * `handleSave`: with an active tab, the file takes the tab's content and type
   * and that content is written to `SavePath(file.name)`; without one nothing happens.
   */
  function HandleSave(e: Editor, file: EditorFile): (r: (EditorFile, Option<Write>))
    ensures ActiveTabData(e).None? ==> r == (file, None)
    ensures ActiveTabData(e).Some? ==>
      var t := ActiveTabData(e).value;
      && r.0 == file.(content := t.content, kind := t.kind)
      && r.1 == Some(Write(SavePath(file.name), t.content))
      && StartsWith(r.1.value.path, "/")
  {
    match ActiveTabData(e)
    case None => (file, None)
    case Some(t) => (file.(content := t.content, kind := t.kind), Some(Write(SavePath(file.name), t.content)))
  }

  /* ---------------------------------------------------------------- */
  /* File tree                                                         */
  /* ---------------------------------------------------------------- */

  /** `FileNode`, with the content `buildFileTree` attaches to files. */
  datatype FileNode =
    | FolderNode(id: string, name: string, children: seq<FileNode>)
    | FileLeaf(id: string, name: string, content: Option<string>)

  /**
   * A snapshot of the sandbox filesystem as `readdir` / `readFile` see it: a
   * directory whose listing fails has `listable` false; a file whose read
   * fails has no contents; anything else (a link, a device) is `OtherEntry`.
   */
  datatype FsEntry =
    | DirEntry(name: string, listable: bool, entries: seq<FsEntry>)
    | FileEntry(name: string, contents: Option<string>)
    | OtherEntry(name: string)

  /** The path of an entry named `name` inside `path`. */
  function JoinPath(path: string, name: string): (r: string)
    ensures StartsWith(r, path) && EndsWith(r, name)
    ensures EndsWith(path, "/") ==> r == path + name
    ensures !EndsWith(path, "/") ==> r == path + "/" + name
    ensures r[|r| - |name| - 1] == '/'
  {
    if EndsWith(path, "/") then
      assert (path + name)[..|path|] == path;
      assert (path + name)[|path| + |name| - |name|..] == name;
      EndsWithAt(path, "/", 0);
      path + name
    else
      assert (path + "/" + name)[..|path|] == path;
      assert (path + "/" + name)[|path| + 1 + |name| - |name|..] == name;
      path + "/" + name
  }

  /** Two slashes in a row at `i`. */
  predicate SlashPairAt(s: string, i: int)
  {
    0 <= i && i + 1 < |s| && s[i] == '/' && s[i + 1] == '/'
  }

  predicate NoDoubleSlash(s: string)
  {
    forall i | 0 <= i < |s| :: !SlashPairAt(s, i)
  }

  /** Joining never creates "//": a path without one stays without one. */
  lemma JoinNoDoubleSlash(path: string, name: string)
    requires NoDoubleSlash(path) && '/' !in name
    ensures NoDoubleSlash(JoinPath(path, name))
  {
    var r := JoinPath(path, name);
    var k := |r| - |name|;
    forall i | 0 <= i && i + 1 < |r| ensures !SlashPairAt(r, i) {
      if i + 1 < k - 1 {
        assert r[i] == path[i] && r[i + 1] == path[i + 1];
        assert !SlashPairAt(path, i);
      } else if i + 1 == k - 1 {
        if EndsWith(path, "/") {
          assert r[i] == path[i] && r[i + 1] == path[i + 1];
          assert !SlashPairAt(path, i);
        } else {
          assert r[i] == path[|path| - 1];
          if r[i] == '/' {
            EndsWithLast(path);
          }
        }
      } else {
        assert r[i + 1] == name[i + 1 - k];
      }
    }
  }

  lemma EndsWithLast(s: string)
    requires s != [] && s[|s| - 1] == '/'
    ensures EndsWith(s, "/")
  {
    assert s[|s| - 1..] == [s[|s| - 1]];
  }

  /** `buildFileTree(container, path)` for the directory `dir`. */
  function ListTree(path: string, dir: FsEntry): (r: seq<FileNode>)
    decreases dir, 1
  {
    if !dir.DirEntry? || !dir.listable then [] else TreeOf(path, dir, |dir.entries|)
  }

  /** The nodes for the first `n` entries of `dir`, as the loop has pushed them. */
  function TreeOf(path: string, dir: FsEntry, n: nat): (r: seq<FileNode>)
    requires dir.DirEntry? && n <= |dir.entries|
    decreases dir, 0, n
  {
    if n == 0 then []
    else
      var entry := dir.entries[n - 1];
      var fullPath := JoinPath(path, entry.name);
      TreeOf(path, dir, n - 1) +
      match entry
      case DirEntry(name, _, _) => [FolderNode(fullPath, name, ListTree(fullPath, entry))]
      case FileEntry(name, contents) => [FileLeaf(fullPath, name, Some(ContentOrEmpty(contents)))]
      case OtherEntry(_) => []
  }

  /**
   * `buildFileTree`: with no sandbox, or when the directory cannot be listed,
   * the tree is empty; otherwise one node per directory or file entry, in
   * listing order, folders built recursively and unreadable files given "".
   */
  method BuildFileTree(hasContainer: bool, path: string, dir: FsEntry) returns (result: seq<FileNode>)
    ensures result == (if hasContainer then ListTree(path, dir) else [])
    decreases dir
  {
    if !hasContainer {
      return [];
    }
    if !dir.DirEntry? || !dir.listable {
      return [];
    }
    result := [];
    var i := 0;
    while i < |dir.entries|
      invariant 0 <= i <= |dir.entries|
      invariant result == TreeOf(path, dir, i)
    {
      var entry := dir.entries[i];
      var fullPath := JoinPath(path, entry.name);
      match entry {
        case DirEntry(name, _, _) =>
          var children := BuildFileTree(hasContainer, fullPath, entry);
          result := result + [FolderNode(fullPath, name, children)];
        case FileEntry(name, contents) =>
          var content := ContentOrEmpty(contents);
          result := result + [FileLeaf(fullPath, name, Some(content))];
        case OtherEntry(_) =>
      }
      i := i + 1;
    }
  }

  /** Every node's id is its parent's path joined with its name, all the way down. */
  predicate IdsArePaths(path: string, nodes: seq<FileNode>)
    decreases nodes
  {
    forall i :: 0 <= i < |nodes| ==>
      && nodes[i].id == JoinPath(path, nodes[i].name)
      && (nodes[i].FolderNode? ==> IdsArePaths(nodes[i].id, nodes[i].children))
  }

  lemma {:induction false} ListTreeIdsArePaths(path: string, dir: FsEntry)
    ensures IdsArePaths(path, ListTree(path, dir))
    decreases dir, 1
  {
    if dir.DirEntry? && dir.listable {
      TreeOfIdsArePaths(path, dir, |dir.entries|);
    }
  }

  lemma {:induction false} TreeOfIdsArePaths(path: string, dir: FsEntry, n: nat)
    requires dir.DirEntry? && n <= |dir.entries|
    ensures IdsArePaths(path, TreeOf(path, dir, n))
    decreases dir, 0, n
  {
    if n > 0 {
      TreeOfIdsArePaths(path, dir, n - 1);
      var entry := dir.entries[n - 1];
      if entry.DirEntry? {
        ListTreeIdsArePaths(JoinPath(path, entry.name), entry);
      }
    }
  }
}
