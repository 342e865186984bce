/**
 * The contractor's folder tree of src/shared/portal.ts: built from the rows, rolled up in place, searched by path.
 * A path is the list of its segments; ids contain no slash.
 */
module Portal {
  import opened Prelude

  type Id = string
  type Path = seq<string>

  datatype Category =
    | PlanSet | Submittal | ProductApproval | CorrectionResponse | JobPhoto | SupervisionPhoto | AgencyIssued
    | Compliance | SignedAgreement | OtherCategory

  datatype Document = Document(id: Id, permitId: Option<Id>, category: Category) {
    /** An empty permit id counts as none. */
    predicate OnPermit() {
      permitId.Some? && permitId.value != ""
    }
  }

  datatype Permit = Permit(id: Id, projectId: Id)

  datatype Input = Input(documents: seq<Document>, projects: seq<Id>, permits: seq<Permit>, gaps: nat,
                         pendingSignatures: nat)

  datatype Folder = Folder(path: Path, children: seq<Folder>, documentIds: seq<Id>, total: nat, attention: bool)

  function Fresh(path: Path, children: seq<Folder>, documentIds: seq<Id>, attention: bool): Folder {
    Folder(path, children, documentIds, 0, attention)
  }

  // ---- rolling up, in place ----

  function TotalTo(children: seq<Folder>, n: nat): nat
    requires n <= |children|
  {
    if n == 0 then 0 else TotalTo(children, n - 1) + children[n - 1].total
  }

  predicate AnyAttention(children: seq<Folder>) {
    exists i :: 0 <= i < |children| && children[i].attention
  }

  /** What rollUp makes of a tree. */
  function Rolled(f: Folder): Folder
    decreases f, |f.children| + 1
  {
    var children := RolledTo(f, |f.children|);
    f.(children := children, total := |f.documentIds| + TotalTo(children, |children|),
       attention := f.attention || AnyAttention(children))
  }

  function RolledTo(f: Folder, n: nat): (rs: seq<Folder>)
    requires n <= |f.children|
    ensures |rs| == n
    decreases f, n
  {
    if n == 0 then [] else RolledTo(f, n - 1) + [Rolled(f.children[n - 1])]
  }

  lemma {:induction false} RolledAt(f: Folder, n: nat, i: nat)
    requires i < n <= |f.children|
    ensures RolledTo(f, n)[i] == Rolled(f.children[i])
  {
    hide Rolled;
    if i < n - 1 {
      RolledAt(f, n - 1, i);
    }
  }

  lemma RolledChildren(f: Folder, children: seq<Folder>)
    requires |children| == |f.children| && forall i :: 0 <= i < |children| ==> children[i] == Rolled(f.children[i])
    ensures RolledTo(f, |f.children|) == children
  {
    hide Rolled;
    forall i | 0 <= i < |children| ensures RolledTo(f, |f.children|)[i] == children[i] {
      RolledAt(f, |f.children|, i);
    }
  }

  lemma {:induction false} TotalPrefix(a: seq<Folder>, b: seq<Folder>, n: nat)
    requires n <= |a| && n <= |b| && forall i :: 0 <= i < n ==> a[i] == b[i]
    ensures TotalTo(a, n) == TotalTo(b, n)
  {
    if n > 0 {
      TotalPrefix(a, b, n - 1);
    }
  }

  /** A folder object: its place and children never change, its badge and flag do. */
  class Node {
    const path: Path
    const children: seq<Node>
    const documentIds: seq<Id>
    var totalDocuments: nat
    var needsAttention: bool
    ghost const height: nat
    ghost const footprint: set<Node>

    /** A tree: each child below this node, and no node in two places. */
    ghost predicate Valid()
      decreases height
    {
      && this in footprint
      && (forall c :: c in children ==>
            c.height < height && c.footprint <= footprint && this !in c.footprint && c.Valid())
      && (forall i, j :: 0 <= i < j < |children| ==> children[i].footprint !! children[j].footprint)
    }

    constructor (path: Path, children: seq<Node>, documentIds: seq<Id>, needsAttention: bool)
      requires forall c :: c in children ==> c.Valid()
      requires forall i, j :: 0 <= i < j < |children| ==> children[i].footprint !! children[j].footprint
      ensures Valid() && this.path == path && this.children == children && this.documentIds == documentIds
      ensures totalDocuments == 0 && this.needsAttention == needsAttention
      ensures footprint == {this} + Union(children)
    {
      this.path, this.children, this.documentIds := path, children, documentIds;
      this.totalDocuments, this.needsAttention := 0, needsAttention;
      height := Above(children);
      footprint := {this} + Union(children);
    }

    ghost function View(): Folder
      requires Valid()
      reads footprint
      decreases height, |children| + 1
    {
      Folder(path, ViewTo(|children|), documentIds, totalDocuments, needsAttention)
    }

    ghost function ViewTo(n: nat): (views: seq<Folder>)
      requires Valid() && n <= |children|
      ensures |views| == n && forall i :: 0 <= i < n ==> views[i] == children[i].View()
      reads footprint
      decreases height, n
    {
      if n == 0 then [] else ViewTo(n - 1) + [children[n - 1].View()]
    }

    method RollUpChildren() returns (sum: nat, ghost done: seq<Folder>)
      requires Valid()
      modifies footprint - {this}
      ensures |done| == |children| && sum == TotalTo(done, |children|)
      ensures forall k :: 0 <= k < |children| ==>
                && done[k] == children[k].View() == Rolled(old(children[k].View()))
                && done[k].attention == children[k].needsAttention
      decreases height, 0
    {
      hide Rolled, Node.View, TotalTo;
      NoTotal();
      done, sum := [], 0;
      for i := 0 to |children|
        invariant |done| == i && sum == TotalTo(done, i)
        invariant forall k :: 0 <= k < i ==>
                    && done[k] == children[k].View() == Rolled(old(children[k].View()))
                    && done[k].attention == children[k].needsAttention
        invariant forall k :: i <= k < |children| ==> children[k].View() == old(children[k].View())
      {
        var t := children[i].RollUp();
        ghost var view := children[i].View();
        OneMoreTotal(done, view);
        ViewParts(children[i]);
        done := done + [view];
        sum := sum + t;
      }
    }

    /** Sets every badge and flag below, and answers the total. */
    method RollUp() returns (n: nat)
      requires Valid()
      modifies footprint
      ensures View() == Rolled(old(View())) && n == totalDocuments
      decreases height, 1
    {
      hide Rolled, AnyAttention, TotalTo, Node.View, Node.ViewTo;
      ghost var before := View();
      ViewParts(this);
      var sum;
      ghost var done;
      sum, done := RollUpChildren();
      AnyAttentionIs(done, this);
      totalDocuments := |documentIds| + sum;
      needsAttention := needsAttention || exists i :: 0 <= i < |children| && children[i].needsAttention;
      n := totalDocuments;
      ViewFrom(this, done);
      RolledIs(before, done);
    }
  }

  lemma NoTotal()
    ensures TotalTo([], 0) == 0
  {
  }

  lemma OneMoreTotal(views: seq<Folder>, view: Folder)
    ensures TotalTo(views + [view], |views| + 1) == TotalTo(views, |views|) + view.total
  {
    TotalPrefix(views + [view], views, |views|);
  }

  lemma ViewParts(node: Node)
    requires node.Valid()
    ensures var v := node.View();
            && v == Folder(node.path, v.children, node.documentIds, node.totalDocuments, node.needsAttention)
            && |v.children| == |node.children|
            && forall k :: 0 <= k < |node.children| ==> v.children[k] == node.children[k].View()
  {
  }

  lemma ViewFrom(node: Node, views: seq<Folder>)
    requires node.Valid() && |views| == |node.children|
    requires forall k :: 0 <= k < |views| ==> views[k] == node.children[k].View()
    ensures node.View() == Folder(node.path, views, node.documentIds, node.totalDocuments, node.needsAttention)
  {
    hide Node.View;
    ViewParts(node);
    assert node.View().children == views;
  }

  lemma AnyAttentionIs(views: seq<Folder>, node: Node)
    requires |views| == |node.children|
    requires forall k :: 0 <= k < |views| ==> views[k].attention == node.children[k].needsAttention
    ensures AnyAttention(views) <==> exists i :: 0 <= i < |node.children| && node.children[i].needsAttention
  {
    if i :| 0 <= i < |node.children| && node.children[i].needsAttention {
      assert views[i].attention;
    }
  }

  lemma RolledIs(f: Folder, children: seq<Folder>)
    requires |children| == |f.children| && forall i :: 0 <= i < |children| ==> children[i] == Rolled(f.children[i])
    ensures Rolled(f) == f.(children := children, total := |f.documentIds| + TotalTo(children, |children|),
                            attention := f.attention || AnyAttention(children))
  {
    RolledChildren(f, children);
  }

  ghost function Union(nodes: seq<Node>): set<Node> {
    set c, n | c in nodes && n in c.footprint :: n
  }

  ghost function Above(nodes: seq<Node>): (h: nat)
    ensures forall n :: n in nodes ==> n.height < h
  {
    if nodes == [] then 0 else Max(Above(nodes[..|nodes| - 1]), nodes[|nodes| - 1].height + 1)
  }

  // ---- the tree that the rows describe ----

  const SECTIONS := 6

  function SectionKey(s: nat): string
    requires s < SECTIONS
  {
    if s == 0 then "plans" else if s == 1 then "submittal" else if s == 2 then "product-approval"
    else if s == 3 then "corrections" else if s == 4 then "photos" else "from-agency"
  }

  function SectionCategories(s: nat): set<Category>
    requires s < SECTIONS
  {
    if s == 0 then {PlanSet} else if s == 1 then {Submittal} else if s == 2 then {ProductApproval}
    else if s == 3 then {CorrectionResponse} else if s == 4 then {JobPhoto, SupervisionPhoto} else {AgencyIssued}
  }

  function Pick(docs: seq<Document>, n: nat, categories: set<Category>): seq<Id>
    requires n <= |docs|
  {
    if n == 0 then []
    else Pick(docs, n - 1, categories) + if docs[n - 1].category in categories then [docs[n - 1].id] else []
  }

  function PickAll(docs: seq<Document>, categories: set<Category>): seq<Id> {
    Pick(docs, |docs|, categories)
  }

  /** The documents of one permit, or the company's, among the first n. */
  function Filed(docs: seq<Document>, n: nat, permit: Option<Id>): seq<Document>
    requires n <= |docs|
  {
    if n == 0 then []
    else Filed(docs, n - 1, permit) + if At(docs[n - 1], permit) then [docs[n - 1]] else []
  }

  predicate At(d: Document, permit: Option<Id>) {
    if d.OnPermit() then d.permitId == permit else permit == None
  }

  function SectionFolder(docs: seq<Document>, project: Id, permit: Id, s: nat): Folder
    requires s < SECTIONS
  {
    Fresh(["projects", project, "permits", permit, SectionKey(s)], [], PickAll(docs, SectionCategories(s)), false)
  }

  function SectionFolders(docs: seq<Document>, project: Id, permit: Id, n: nat): (fs: seq<Folder>)
    requires n <= SECTIONS
    ensures |fs| == n
  {
    if n == 0 then [] else SectionFolders(docs, project, permit, n - 1) + [SectionFolder(docs, project, permit, n - 1)]
  }

  /** An empty permit id holds no documents: those count as the company's. */
  function DocumentsOf(input: Input, permit: Id): seq<Document> {
    if permit == "" then [] else Filed(input.documents, |input.documents|, Some(permit))
  }

  function PermitFolder(input: Input, project: Id, permit: Id): Folder {
    Fresh(["projects", project, "permits", permit],
          SectionFolders(DocumentsOf(input, permit), project, permit, SECTIONS), [], false)
  }

  function PermitFolders(input: Input, project: Id, n: nat): seq<Folder>
    requires n <= |input.permits|
  {
    if n == 0 then []
    else PermitFolders(input, project, n - 1)
         + if input.permits[n - 1].projectId != project then []
           else [PermitFolder(input, project, input.permits[n - 1].id)]
  }

  function ProjectFolder(input: Input, project: Id): Folder {
    Fresh(["projects", project], PermitFolders(input, project, |input.permits|), [], false)
  }

  function ProjectFolders(input: Input, n: nat): (fs: seq<Folder>)
    requires n <= |input.projects|
    ensures |fs| == n
  {
    if n == 0 then [] else ProjectFolders(input, n - 1) + [ProjectFolder(input, input.projects[n - 1])]
  }

  function CompanyFolder(input: Input): Folder {
    var docs := Filed(input.documents, |input.documents|, None);
    Fresh(["company"],
          [Fresh(["company", "compliance"], [], PickAll(docs, {Compliance}), input.gaps > 0),
           Fresh(["company", "agreements"], [], PickAll(docs, {SignedAgreement}), input.pendingSignatures > 0),
           Fresh(["company", "tax"], [], PickAll(docs, {OtherCategory}), false)],
          [], false)
  }

  function ProjectsFolder(input: Input): Folder {
    Fresh(["projects"], ProjectFolders(input, |input.projects|), [], false)
  }

  function TreeOf(input: Input): Folder {
    Fresh([], [CompanyFolder(input), ProjectsFolder(input)], [], false)
  }

  // ---- building it ----

  /** The nodes are separate trees within `space` that look like these folders. */
  ghost predicate Shows(nodes: seq<Node>, views: seq<Folder>, space: set<Node>)
    reads space
  {
    && (forall c :: c in nodes ==> c.Valid() && c.footprint <= space)
    && (forall i, j :: 0 <= i < j < |nodes| ==> nodes[i].footprint !! nodes[j].footprint)
    && |nodes| == |views|
    && forall k :: 0 <= k < |nodes| ==> nodes[k].View() == views[k]
  }

  lemma NoNodes()
    ensures Shows([], [], {})
  {
  }

  lemma OneMoreNode(nodes: seq<Node>, views: seq<Folder>, space: set<Node>, node: Node)
    requires Shows(nodes, views, space) && node.Valid() && node.footprint !! space
    ensures Shows(nodes + [node], views + [node.View()], space + node.footprint)
  {
    hide Node.View, Node.Valid;
  }

  method NewFolder(path: Path, children: seq<Node>, ids: seq<Id>, attention: bool, ghost views: seq<Folder>,
      ghost space: set<Node>)
      returns (node: Node)
    requires Shows(children, views, space)
    ensures node.Valid() && node.View() == Fresh(path, views, ids, attention)
    ensures fresh(node) && node.footprint <= {node} + space
  {
    hide Node.View, Node.Valid;
    node := new Node(path, children, ids, attention);
    ViewFrom(node, views);
  }

  /** One more folder beside others. */
  method Add(nodes: seq<Node>, ghost views: seq<Folder>, ghost space: set<Node>, path: Path, children: seq<Node>,
      ghost below: seq<Folder>, ghost room: set<Node>, ids: seq<Id>, attention: bool)
      returns (more: seq<Node>, ghost wider: set<Node>)
    requires Shows(nodes, views, space) && Shows(children, below, room) && space !! room
    ensures Shows(more, views + [Fresh(path, below, ids, attention)], wider)
    ensures fresh(wider - space - room)
  {
    hide Node.View, Node.Valid;
    var node := NewFolder(path, children, ids, attention, below, room);
    OneMoreNode(nodes, views, space, node);
    more := nodes + [node];
    wider := space + node.footprint;
  }

  method NewSections(docs: seq<Document>, project: Id, permit: Id) returns (nodes: seq<Node>, ghost space: set<Node>)
    ensures Shows(nodes, SectionFolders(docs, project, permit, SECTIONS), space) && fresh(space)
  {
    hide Shows, SectionKey, PickAll;
    NoNodes();
    nodes, space := [], {};
    for s := 0 to SECTIONS
      invariant Shows(nodes, SectionFolders(docs, project, permit, s), space) && fresh(space)
    {
      nodes, space := Add(nodes, SectionFolders(docs, project, permit, s), space,
                          ["projects", project, "permits", permit, SectionKey(s)],
                          [], [], {}, PickAll(docs, SectionCategories(s)), false);
    }
  }

  function Lookup<K, V>(m: map<K, seq<V>>, key: K): seq<V> {
    if key in m then m[key] else []
  }

  lemma OneMoreFiled(docs: seq<Document>, i: nat, permit: Option<Id>)
    requires i < |docs|
    ensures Filed(docs, i + 1, permit) == Filed(docs, i, permit) + if At(docs[i], permit) then [docs[i]] else []
  {
  }

  lemma LookupAfter<K, V>(m: map<K, seq<V>>, k: K, list: seq<V>, key: K)
    ensures Lookup(m[k := list], key) == if key == k then list else Lookup(m, key)
  {
  }

  ghost predicate GroupedByPermit(byPermit: map<Id, seq<Document>>, documents: seq<Document>, n: nat)
    requires n <= |documents|
  {
    forall permit :: Lookup(byPermit, permit) == if permit == "" then [] else Filed(documents, n, Some(permit))
  }

  lemma OneMoreGrouped(byPermit: map<Id, seq<Document>>, documents: seq<Document>, i: nat)
    requires i < |documents| && GroupedByPermit(byPermit, documents, i)
    ensures var d := documents[i];
            GroupedByPermit(if !d.OnPermit() then byPermit
                            else byPermit[d.permitId.value := Lookup(byPermit, d.permitId.value) + [d]],
                            documents, i + 1)
  {
    hide Filed, Lookup;
    var d := documents[i];
    forall permit
      ensures d.OnPermit() ==>
                Lookup(byPermit[d.permitId.value := Lookup(byPermit, d.permitId.value) + [d]], permit)
                == if permit == "" then [] else Filed(documents, i + 1, Some(permit))
      ensures !d.OnPermit() ==>
                Lookup(byPermit, permit) == if permit == "" then [] else Filed(documents, i + 1, Some(permit))
    {
      OneMoreFiled(documents, i, Some(permit));
      if d.OnPermit() {
        LookupAfter(byPermit, d.permitId.value, Lookup(byPermit, d.permitId.value) + [d], permit);
      }
    }
  }

  method GroupByPermit(documents: seq<Document>) returns (byPermit: map<Id, seq<Document>>, companyDocs: seq<Document>)
    ensures companyDocs == Filed(documents, |documents|, None) && GroupedByPermit(byPermit, documents, |documents|)
  {
    byPermit, companyDocs := map[], [];
    for i := 0 to |documents|
      invariant companyDocs == Filed(documents, i, None) && GroupedByPermit(byPermit, documents, i)
    {
      hide Filed, Lookup, GroupedByPermit;
      var d := documents[i];
      OneMoreFiled(documents, i, None);
      OneMoreGrouped(byPermit, documents, i);
      if d.OnPermit() {
        byPermit := byPermit[d.permitId.value := Lookup(byPermit, d.permitId.value) + [d]];
      } else {
        companyDocs := companyDocs + [d];
      }
    }
  }

  function PermitsOf(permits: seq<Permit>, n: nat, project: Id): seq<Permit>
    requires n <= |permits|
  {
    if n == 0 then []
    else PermitsOf(permits, n - 1, project) + if permits[n - 1].projectId == project then [permits[n - 1]] else []
  }

  lemma OneMorePermit(permits: seq<Permit>, i: nat, project: Id)
    requires i < |permits|
    ensures PermitsOf(permits, i + 1, project)
         == PermitsOf(permits, i, project) + if permits[i].projectId == project then [permits[i]] else []
  {
  }

  ghost predicate GroupedByProject(byProject: map<Id, seq<Permit>>, permits: seq<Permit>, n: nat)
    requires n <= |permits|
  {
    forall project :: Lookup(byProject, project) == PermitsOf(permits, n, project)
  }

  lemma OneMoreProject(byProject: map<Id, seq<Permit>>, permits: seq<Permit>, i: nat)
    requires i < |permits| && GroupedByProject(byProject, permits, i)
    ensures var p := permits[i];
            GroupedByProject(byProject[p.projectId := Lookup(byProject, p.projectId) + [p]], permits, i + 1)
  {
    hide PermitsOf, Lookup;
    var p := permits[i];
    var after := byProject[p.projectId := Lookup(byProject, p.projectId) + [p]];
    forall project ensures Lookup(after, project) == PermitsOf(permits, i + 1, project) {
      OneMorePermit(permits, i, project);
      LookupAfter(byProject, p.projectId, Lookup(byProject, p.projectId) + [p], project);
    }
  }

  method GroupByProject(permits: seq<Permit>) returns (byProject: map<Id, seq<Permit>>)
    ensures GroupedByProject(byProject, permits, |permits|)
  {
    byProject := map[];
    for i := 0 to |permits|
      invariant GroupedByProject(byProject, permits, i)
    {
      hide GroupedByProject, Lookup;
      var p := permits[i];
      OneMoreProject(byProject, permits, i);
      byProject := byProject[p.projectId := Lookup(byProject, p.projectId) + [p]];
    }
  }

  function FoldersOf(input: Input, project: Id, permits: seq<Permit>, n: nat): (fs: seq<Folder>)
    requires n <= |permits|
    ensures |fs| == n
  {
    if n == 0 then [] else FoldersOf(input, project, permits, n - 1) + [PermitFolder(input, project, permits[n - 1].id)]
  }

  lemma {:induction false} FoldersOfPrefix(input: Input, project: Id, a: seq<Permit>, b: seq<Permit>, n: nat)
    requires n <= |a| && n <= |b| && forall i :: 0 <= i < n ==> a[i] == b[i]
    ensures FoldersOf(input, project, a, n) == FoldersOf(input, project, b, n)
  {
    hide PermitFolder;
    if n > 0 {
      FoldersOfPrefix(input, project, a, b, n - 1);
    }
  }

  lemma {:induction false} GroupedFolders(input: Input, project: Id, n: nat)
    requires n <= |input.permits|
    ensures var list := PermitsOf(input.permits, n, project);
            FoldersOf(input, project, list, |list|) == PermitFolders(input, project, n)
  {
    hide PermitFolder;
    if n > 0 {
      GroupedFolders(input, project, n - 1);
      var before, list := PermitsOf(input.permits, n - 1, project), PermitsOf(input.permits, n, project);
      FoldersOfPrefix(input, project, before, list, |before|);
      if input.permits[n - 1].projectId == project {
        assert list == before + [input.permits[n - 1]];
      } else {
        assert list == before && PermitFolders(input, project, n) == PermitFolders(input, project, n - 1);
      }
    }
  }

  method NewPermits(input: Input, byPermit: map<Id, seq<Document>>, project: Id, permits: seq<Permit>)
      returns (nodes: seq<Node>, ghost space: set<Node>)
    requires GroupedByPermit(byPermit, input.documents, |input.documents|)
    ensures Shows(nodes, FoldersOf(input, project, permits, |permits|), space) && fresh(space)
  {
    hide Shows, SectionFolders, Lookup, Filed;
    NoNodes();
    nodes, space := [], {};
    for i := 0 to |permits|
      invariant Shows(nodes, FoldersOf(input, project, permits, i), space) && fresh(space)
    {
      var permit := permits[i].id;
      var docs := Lookup(byPermit, permit);
      var sections, room := NewSections(docs, project, permit);
      nodes, space := Add(nodes, FoldersOf(input, project, permits, i), space, ["projects", project, "permits", permit],
                          sections, SectionFolders(docs, project, permit, SECTIONS), room, [], false);
    }
  }

  method NewProjects(input: Input, byPermit: map<Id, seq<Document>>) returns (nodes: seq<Node>, ghost space: set<Node>)
    requires GroupedByPermit(byPermit, input.documents, |input.documents|)
    ensures Shows(nodes, ProjectFolders(input, |input.projects|), space) && fresh(space)
  {
    hide Shows, PermitFolders, FoldersOf, Lookup, GroupedByPermit;
    NoNodes();
    var byProject := GroupByProject(input.permits);
    nodes, space := [], {};
    for i := 0 to |input.projects|
      invariant Shows(nodes, ProjectFolders(input, i), space) && fresh(space)
    {
      var project := input.projects[i];
      GroupedFolders(input, project, |input.permits|);
      var children, room := NewPermits(input, byPermit, project, Lookup(byProject, project));
      nodes, space := Add(nodes, ProjectFolders(input, i), space, ["projects", project],
                          children, PermitFolders(input, project, |input.permits|), room, [], false);
    }
  }

  method NewCompany(input: Input, companyDocs: seq<Document>) returns (children: seq<Node>, ghost space: set<Node>)
    requires companyDocs == Filed(input.documents, |input.documents|, None)
    ensures Shows(children, CompanyFolder(input).children, space) && fresh(space)
  {
    hide Shows, PickAll, Filed;
    NoNodes();
    ghost var views := CompanyFolder(input).children;
    assert views[..0] == [] && views[..1] == [] + [views[0]] && views[..2] == views[..1] + [views[1]];
    assert views == views[..2] + [views[2]];
    children, space := Add([], [], {}, ["company", "compliance"], [], [], {}, PickAll(companyDocs, {Compliance}),
        input.gaps > 0);
    children, space := Add(children, views[..1], space, ["company", "agreements"], [], [], {},
                           PickAll(companyDocs, {SignedAgreement}), input.pendingSignatures > 0);
    children, space := Add(children, views[..2], space, ["company", "tax"], [], [], {},
        PickAll(companyDocs, {OtherCategory}), false);
  }

  /** The whole tree, badges and flags set. */
  method BuildFolderTree(input: Input) returns (root: Node)
    ensures root.Valid() && fresh(root.footprint)
    ensures root.View() == Rolled(TreeOf(input))
  {
    hide Shows, Node.View, Node.Valid, Rolled, ProjectFolders, Filed, PickAll, GroupedByPermit;
    NoNodes();
    var byPermit, companyDocs := GroupByPermit(input.documents);
    var company, room := NewCompany(input, companyDocs);
    var top, space := Add([], [], {}, ["company"], company, CompanyFolder(input).children, room, [], false);
    assert [] + [CompanyFolder(input)] == [CompanyFolder(input)];
    assert [CompanyFolder(input)] + [ProjectsFolder(input)] == [CompanyFolder(input), ProjectsFolder(input)];
    var projects;
    projects, room := NewProjects(input, byPermit);
    top, space := Add(top, [CompanyFolder(input)], space, ["projects"], projects,
        ProjectFolders(input, |input.projects|), room, [], false);
    root := NewFolder([], top, [], false, [CompanyFolder(input), ProjectsFolder(input)], space);
    var _ := root.RollUp();
  }

  // ---- each document once ----

  function Count(f: Folder, id: Id): nat
    decreases f, |f.children| + 1
  {
    multiset(f.documentIds)[id] + CountTo(f, |f.children|, id)
  }

  function CountTo(f: Folder, n: nat, id: Id): nat
    requires n <= |f.children|
    decreases f, n
  {
    if n == 0 then 0 else CountTo(f, n - 1, id) + Count(f.children[n - 1], id)
  }

  ghost predicate UniqueIds(input: Input) {
    && (forall i, j :: 0 <= i < j < |input.documents| ==> input.documents[i].id != input.documents[j].id)
    && (forall i, j :: 0 <= i < j < |input.permits| ==> input.permits[i].id != input.permits[j].id)
    && (forall i, j :: 0 <= i < j < |input.projects| ==> input.projects[i] != input.projects[j])
  }

  predicate HasSection(c: Category) {
    c !in {Compliance, SignedAgreement, OtherCategory}
  }

  /** A document has a shelf: at company level one of three, on a shown permit one of the six sections. */
  predicate HasShelf(input: Input, d: Document) {
    if d.OnPermit() then
      HasSection(d.category)
      && exists p :: p in input.permits && p.id == d.permitId.value && p.projectId in input.projects
    else !HasSection(d.category)
  }

  /** `found` is the one document with this id among the first n, if there is one. */
  ghost predicate Identifies(docs: seq<Document>, n: nat, id: Id, found: Option<Document>)
    requires n <= |docs|
  {
    && (forall i :: 0 <= i < n && docs[i].id == id ==> found == Some(docs[i]))
    && (found.Some? ==> found.value.id == id && exists i :: 0 <= i < n && docs[i] == found.value)
    && (forall i, j :: 0 <= i < j < n ==> docs[i].id != docs[j].id)
  }

  lemma IdentifiesEarlier(docs: seq<Document>, n: nat, id: Id, found: Option<Document>)
    requires 0 < n <= |docs| && Identifies(docs, n, id, found)
    ensures Identifies(docs, n - 1, id, if docs[n - 1].id == id then None else found)
    ensures docs[n - 1].id == id ==> found == Some(docs[n - 1])
  {
  }

  lemma CountSnoc(ids: seq<Id>, last: Id, id: Id)
    ensures multiset(ids + [last])[id] == multiset(ids)[id] + if last == id then 1 else 0
  {
  }

  lemma PickStep(docs: seq<Document>, n: nat, categories: set<Category>)
    requires 0 < n <= |docs|
    ensures var before := Pick(docs, n - 1, categories);
            Pick(docs, n, categories)
            == if docs[n - 1].category in categories then before + [docs[n - 1].id] else before
  {
  }

  lemma PickNone(docs: seq<Document>, categories: set<Category>, id: Id, found: Option<Document>)
    requires Identifies(docs, 0, id, found)
    ensures found == None && Pick(docs, 0, categories) == []
  {
  }

  lemma {:induction false} PickCounts(docs: seq<Document>, n: nat, categories: set<Category>, id: Id,
      found: Option<Document>)
    requires n <= |docs| && Identifies(docs, n, id, found)
    ensures multiset(Pick(docs, n, categories))[id]
            == if found.Some? && found.value.category in categories then 1 else 0
  {
    hide Identifies, Pick;
    if n == 0 {
      PickNone(docs, categories, id, found);
    } else {
      IdentifiesEarlier(docs, n, id, found);
      PickCounts(docs, n - 1, categories, id, if docs[n - 1].id == id then None else found);
      PickStep(docs, n, categories);
      var before, last := Pick(docs, n - 1, categories), docs[n - 1];
      if last.category in categories {
        CountSnoc(before, last.id, id);
        assert Pick(docs, n, categories) == before + [last.id];
      } else {
        assert Pick(docs, n, categories) == before;
      }
    }
  }

  lemma {:induction false} FiledFrom(docs: seq<Document>, n: nat, permit: Option<Id>)
    requires n <= |docs|
    ensures forall d :: d in Filed(docs, n, permit) ==> exists i :: 0 <= i < n && docs[i] == d
  {
    hide At;
    if n > 0 {
      FiledFrom(docs, n - 1, permit);
    }
  }

  lemma OneMoreIdentified(here: seq<Document>, d: Document, id: Id, found: Option<Document>)
    requires Identifies(here, |here|, id, found) && forall i :: 0 <= i < |here| ==> here[i].id != d.id
    ensures Identifies(here + [d], |here| + 1, id, if d.id == id then Some(d) else found)
  {
    var more := here + [d];
    assert more[|here|] == d && forall i :: 0 <= i < |here| ==> more[i] == here[i];
    if found.Some? {
      var i :| 0 <= i < |here| && here[i] == found.value;
      assert more[i] == found.value;
    }
  }

  lemma NothingToFind(docs: seq<Document>, id: Id, found: Option<Document>)
    requires Identifies(docs, 0, id, found)
    ensures found == None
  {
  }

  lemma LastIsNew(docs: seq<Document>, n: nat, here: seq<Document>, permit: Option<Id>, id: Id, found: Option<Document>)
    requires 0 < n <= |docs| && Identifies(docs, n, id, found) && here == Filed(docs, n - 1, permit)
    ensures forall i :: 0 <= i < |here| ==> here[i].id != docs[n - 1].id
  {
    hide At, Filed;
    FiledFrom(docs, n - 1, permit);
    forall i | 0 <= i < |here| ensures here[i].id != docs[n - 1].id {
      assert here[i] in here;
    }
  }

  /** What is found among the documents of one permit. */
  function FoundAt(found: Option<Document>, permit: Option<Id>): Option<Document> {
    if found.Some? && At(found.value, permit) then found else None
  }

  lemma OneMoreFound(docs: seq<Document>, n: nat, permit: Option<Id>, id: Id, found: Option<Document>)
    requires 0 < n <= |docs| && Identifies(docs, n, id, found)
    requires var here, before := Filed(docs, n - 1, permit), if docs[n - 1].id == id then None else found;
             Identifies(here, |here|, id, FoundAt(before, permit))
    ensures var here := Filed(docs, n, permit);
            Identifies(here, |here|, id, FoundAt(found, permit))
  {
    hide Identifies, At, Filed;
    var here, last := Filed(docs, n - 1, permit), docs[n - 1];
    var before := if last.id == id then None else found;
    IdentifiesEarlier(docs, n, id, found);
    OneMoreFiled(docs, n - 1, permit);
    if At(last, permit) {
      LastIsNew(docs, n, here, permit, id, found);
      OneMoreIdentified(here, last, id, FoundAt(before, permit));
    } else {
      assert Filed(docs, n, permit) == here;
    }
  }

  lemma {:induction false} FiledIdentifies(docs: seq<Document>, n: nat, permit: Option<Id>, id: Id,
      found: Option<Document>)
    requires n <= |docs| && Identifies(docs, n, id, found)
    ensures var here := Filed(docs, n, permit);
            Identifies(here, |here|, id, FoundAt(found, permit))
  {
    if n == 0 {
      NothingIdentified(id);
      NothingToFind(docs, id, found);
    } else {
      hide Identifies, At, Filed, FoundAt;
      IdentifiesEarlier(docs, n, id, found);
      FiledIdentifies(docs, n - 1, permit, id, if docs[n - 1].id == id then None else found);
      OneMoreFound(docs, n, permit, id, found);
    }
  }

  predicate InSections(c: Category, n: nat) {
    exists s: nat :: s < n && s < SECTIONS && c in SectionCategories(s)
  }

  lemma SectionsAreDisjoint(c: Category, n: nat)
    ensures n < SECTIONS && c in SectionCategories(n) ==> !InSections(c, n)
    ensures InSections(c, SECTIONS) <==> HasSection(c)
  {
    assert c == PlanSet ==> c in SectionCategories(0);
    assert c == Submittal ==> c in SectionCategories(1);
    assert c == ProductApproval ==> c in SectionCategories(2);
    assert c == CorrectionResponse ==> c in SectionCategories(3);
    assert c in {JobPhoto, SupervisionPhoto} ==> c in SectionCategories(4);
    assert c == AgencyIssued ==> c in SectionCategories(5);
  }

  lemma {:induction false} SectionAt(docs: seq<Document>, project: Id, permit: Id, n: nat, s: nat)
    requires s < n <= SECTIONS
    ensures SectionFolders(docs, project, permit, n)[s] == SectionFolder(docs, project, permit, s)
  {
    if s < n - 1 {
      SectionAt(docs, project, permit, n - 1, s);
    }
  }

  lemma {:induction false} SectionsCount(docs: seq<Document>, project: Id, permit: Id, f: Folder, n: nat, id: Id,
      found: Option<Document>)
    requires Identifies(docs, |docs|, id, found)
    requires f.children == SectionFolders(docs, project, permit, SECTIONS) && n <= SECTIONS
    ensures CountTo(f, n, id) == if found.Some? && InSections(found.value.category, n) then 1 else 0
  {
    hide Identifies, SectionKey, SectionCategories, InSections, SectionFolders, Pick;
    if n == 0 {
      NoSections(found);
    } else {
      SectionsCount(docs, project, permit, f, n - 1, id, found);
      SectionAt(docs, project, permit, SECTIONS, n - 1);
      PickCounts(docs, |docs|, SectionCategories(n - 1), id, found);
      LeafCount(f.children[n - 1], id);
      if found.Some? {
        SectionsAreDisjoint(found.value.category, n - 1);
        OneMoreSection(found.value.category, n - 1);
      }
    }
  }

  lemma NoSections(found: Option<Document>)
    ensures found.Some? ==> !InSections(found.value.category, 0)
  {
  }

  lemma OneMoreSection(c: Category, n: nat)
    requires n < SECTIONS
    ensures InSections(c, n + 1) <==> InSections(c, n) || c in SectionCategories(n)
  {
  }

  lemma LeafCount(f: Folder, id: Id)
    requires f.children == []
    ensures Count(f, id) == multiset(f.documentIds)[id]
  {
  }

  /** A permit's folder holds the document once if it is on that permit and has a section. */
  lemma PermitCount(input: Input, project: Id, permit: Id, id: Id, found: Option<Document>)
    requires Identifies(input.documents, |input.documents|, id, found)
    ensures Count(PermitFolder(input, project, permit), id)
         == if found.Some? && found.value.OnPermit() && found.value.permitId == Some(permit)
               && HasSection(found.value.category)
            then 1 else 0
  {
    hide Identifies, InSections, SectionCategories, SectionFolders;
    var docs, f := DocumentsOf(input, permit), PermitFolder(input, project, permit);
    var here := if permit != "" && found.Some? && At(found.value, Some(permit)) then found else None;
    assert Identifies(docs, |docs|, id, here) by {
      if permit == "" {
        NothingIdentified(id);
      } else {
        FiledIdentifies(input.documents, |input.documents|, Some(permit), id, found);
      }
    }
    SectionsCount(docs, project, permit, f, SECTIONS, id, here);
    if here.Some? {
      SectionsAreDisjoint(here.value.category, SECTIONS);
    }
  }

  lemma NothingIdentified(id: Id)
    ensures Identifies([], 0, id, None)
  {
  }

  predicate OnPermitsOf(input: Input, n: nat, project: Id, permit: Option<Id>)
    requires n <= |input.permits|
  {
    exists i :: 0 <= i < n && input.permits[i].projectId == project && permit == Some(input.permits[i].id)
  }

  lemma {:induction false} PermitsCount(input: Input, project: Id, f: Folder, n: nat, id: Id, found: Option<Document>)
    requires Identifies(input.documents, |input.documents|, id, found) && UniqueIds(input) && n <= |input.permits|
    requires PermitFolders(input, project, n) <= f.children
    ensures CountTo(f, |PermitFolders(input, project, n)|, id)
         == if found.Some? && found.value.OnPermit() && HasSection(found.value.category)
               && OnPermitsOf(input, n, project, found.value.permitId) then 1 else 0
  {
    hide Identifies, PermitFolder;
    if n > 0 {
      PermitsCount(input, project, f, n - 1, id, found);
      var p := input.permits[n - 1];
      if p.projectId == project {
        PermitCount(input, project, p.id, id, found);
        assert f.children[|PermitFolders(input, project, n - 1)|] == PermitFolder(input, project, p.id);
      }
      if found.Some? {
        assert OnPermitsOf(input, n, project, found.value.permitId)
          <==> OnPermitsOf(input, n - 1, project, found.value.permitId)
               || (p.projectId == project && found.value.permitId == Some(p.id));
      }
    }
  }

  predicate OnProjects(input: Input, n: nat, permit: Option<Id>)
    requires n <= |input.projects|
  {
    exists k :: 0 <= k < n && OnPermitsOf(input, |input.permits|, input.projects[k], permit)
  }

  lemma {:induction false} ProjectAt(input: Input, n: nat, k: nat)
    requires k < n <= |input.projects|
    ensures ProjectFolders(input, n)[k] == ProjectFolder(input, input.projects[k])
  {
    hide ProjectFolder;
    if k < n - 1 {
      ProjectAt(input, n - 1, k);
    }
  }

  lemma {:induction false} ProjectsCount(input: Input, f: Folder, n: nat, id: Id, found: Option<Document>)
    requires Identifies(input.documents, |input.documents|, id, found) && UniqueIds(input) && n <= |input.projects|
    requires f.children == ProjectFolders(input, |input.projects|)
    ensures CountTo(f, n, id)
         == if found.Some? && found.value.OnPermit() && HasSection(found.value.category)
               && OnProjects(input, n, found.value.permitId) then 1 else 0
  {
    hide Identifies, ProjectFolders, OnPermitsOf, PermitFolders;
    if n > 0 {
      ProjectsCount(input, f, n - 1, id, found);
      ProjectAt(input, |input.projects|, n - 1);
      var project := ProjectFolder(input, input.projects[n - 1]);
      PermitsCount(input, input.projects[n - 1], project, |input.permits|, id, found);
      assert Count(project, id) == CountTo(project, |project.children|, id);
      if found.Some? {
        assert OnProjects(input, n, found.value.permitId)
          <==> OnProjects(input, n - 1, found.value.permitId)
               || OnPermitsOf(input, |input.permits|, input.projects[n - 1], found.value.permitId);
        OneProject(input, n - 1, found.value.permitId);
      }
    }
  }

  /** A permit belongs to one project. */
  lemma OneProject(input: Input, n: nat, permit: Option<Id>)
    requires UniqueIds(input) && n < |input.projects|
    ensures OnPermitsOf(input, |input.permits|, input.projects[n], permit) ==> !OnProjects(input, n, permit)
  {
  }

  lemma CompanyCount(input: Input, id: Id, found: Option<Document>)
    requires Identifies(input.documents, |input.documents|, id, found)
    ensures Count(CompanyFolder(input), id)
         == if found.Some? && !found.value.OnPermit() && !HasSection(found.value.category) then 1 else 0
  {
    hide Identifies, Filed, Pick;
    var f, docs := CompanyFolder(input), Filed(input.documents, |input.documents|, None);
    FiledIdentifies(input.documents, |input.documents|, None, id, found);
    var here := if found.Some? && At(found.value, None) then found else None;
    PickCounts(docs, |docs|, {Compliance}, id, here);
    PickCounts(docs, |docs|, {SignedAgreement}, id, here);
    PickCounts(docs, |docs|, {OtherCategory}, id, here);
    LeafCount(f.children[0], id);
    LeafCount(f.children[1], id);
    LeafCount(f.children[2], id);
    ThreeChildren(f, id);
  }

  lemma {:induction false} ThreeChildren(f: Folder, id: Id)
    requires |f.children| == 3 && f.documentIds == []
    ensures Count(f, id) == Count(f.children[0], id) + Count(f.children[1], id) + Count(f.children[2], id)
  {
    assert CountTo(f, 3, id) == CountTo(f, 2, id) + Count(f.children[2], id);
    assert CountTo(f, 2, id) == CountTo(f, 1, id) + Count(f.children[1], id);
  }

  lemma {:induction false} TwoChildren(f: Folder, id: Id)
    requires |f.children| == 2 && f.documentIds == []
    ensures Count(f, id) == Count(f.children[0], id) + Count(f.children[1], id)
  {
    assert CountTo(f, 2, id) == CountTo(f, 1, id) + Count(f.children[1], id);
  }

  /** Every document with a shelf is filed in exactly one folder, every other document and every other id in none. */
  lemma FiledExactlyOnce(input: Input, id: Id)
    requires UniqueIds(input)
    ensures Count(TreeOf(input), id)
         == if exists d :: d in input.documents && d.id == id && HasShelf(input, d) then 1 else 0
  {
    hide CompanyFolder, ProjectFolders, OnProjects;
    var found := if d :| d in input.documents && d.id == id then Some(d) else None;
    assert Identifies(input.documents, |input.documents|, id, found);
    CompanyCount(input, id, found);
    ProjectsCount(input, ProjectsFolder(input), |input.projects|, id, found);
    var tree := TreeOf(input);
    TwoChildren(tree, id);
    assert Count(ProjectsFolder(input), id) == CountTo(ProjectsFolder(input), |input.projects|, id);
    if found.Some? && found.value.OnPermit() {
      ShelfOnProjects(input, found.value);
    }
  }

  lemma ShelfOnProjects(input: Input, d: Document)
    requires d.OnPermit()
    ensures OnProjects(input, |input.projects|, d.permitId)
       <==> exists p :: p in input.permits && p.id == d.permitId.value && p.projectId in input.projects
  {
  }

  // ---- badges and flags ----

  /** Everything filed in a folder or below it. */
  function Contents(f: Folder): seq<Id>
    decreases f, |f.children| + 1
  {
    f.documentIds + ContentsTo(f, |f.children|)
  }

  function ContentsTo(f: Folder, n: nat): seq<Id>
    requires n <= |f.children|
    decreases f, n
  {
    if n == 0 then [] else ContentsTo(f, n - 1) + Contents(f.children[n - 1])
  }

  lemma {:induction false} ContentsCount(f: Folder, id: Id)
    ensures multiset(Contents(f))[id] == Count(f, id)
    decreases f, |f.children| + 1
  {
    ContentsCountTo(f, |f.children|, id);
  }

  lemma {:induction false} ContentsCountTo(f: Folder, n: nat, id: Id)
    requires n <= |f.children|
    ensures multiset(ContentsTo(f, n))[id] == CountTo(f, n, id)
    decreases f, n
  {
    if n > 0 {
      ContentsCountTo(f, n - 1, id);
      ContentsCount(f.children[n - 1], id);
    }
  }

  predicate Flagged(f: Folder)
    decreases f
  {
    f.attention || exists i :: 0 <= i < |f.children| && Flagged(f.children[i])
  }

  /** In the whole tree each badge is the number of documents below, and each flag says one is raised below. */
  ghost predicate Settled(f: Folder)
    decreases f
  {
    && f.total == |Contents(f)|
    && (f.attention <==> Flagged(f))
    && forall i :: 0 <= i < |f.children| ==> Settled(f.children[i])
  }

  lemma {:induction false} RolledIsSettled(f: Folder)
    ensures Settled(Rolled(f)) && Contents(Rolled(f)) == Contents(f) && (Flagged(Rolled(f)) <==> Flagged(f))
    ensures Rolled(f).total == |Contents(f)|
    decreases f, |f.children| + 1
  {
    hide Settled, Flagged, AnyAttention;
    var r := Rolled(f);
    RolledBelow(f, |f.children|);
    forall i | 0 <= i < |f.children| ensures r.children[i] == Rolled(f.children[i]) {
      RolledAt(f, |f.children|, i);
    }
    SettledFrom(f, r);
  }

  lemma SettledFrom(f: Folder, r: Folder)
    requires |r.children| == |f.children| && r.documentIds == f.documentIds
    requires r.total == |f.documentIds| + TotalTo(r.children, |r.children|)
    requires r.attention <==> f.attention || AnyAttention(r.children)
    requires TotalTo(r.children, |r.children|) == |ContentsTo(f, |f.children|)|
    requires ContentsTo(r, |r.children|) == ContentsTo(f, |f.children|)
    requires forall i :: 0 <= i < |r.children| ==>
               Settled(r.children[i]) && (Flagged(r.children[i]) <==> Flagged(f.children[i]))
    ensures Settled(r) && Contents(r) == Contents(f) && (Flagged(r) <==> Flagged(f))
  {
    hide TotalTo, ContentsTo;
  }

  lemma {:induction false} RolledBelow(f: Folder, n: nat)
    requires n <= |f.children|
    ensures forall i :: 0 <= i < n ==>
              Settled(Rolled(f.children[i])) && (Flagged(Rolled(f.children[i])) <==> Flagged(f.children[i]))
    ensures TotalTo(Rolled(f).children, n) == |ContentsTo(f, n)|
    ensures ContentsTo(Rolled(f), n) == ContentsTo(f, n)
    decreases f, n
  {
    hide Settled, Flagged, Contents, Rolled;
    RolledParts(f);
    if n > 0 {
      RolledBelow(f, n - 1);
      RolledIsSettled(f.children[n - 1]);
      RolledAt(f, |f.children|, n - 1);
    }
  }

  lemma RolledParts(f: Folder)
    ensures Rolled(f).children == RolledTo(f, |f.children|)
  {
  }

  lemma {:induction false} OnceEach(ids: seq<Id>)
    requires forall id :: multiset(ids)[id] <= 1
    ensures |set id | id in ids| == |ids|
  {
    if ids != [] {
      var front, last := ids[..|ids| - 1], ids[|ids| - 1];
      assert ids == front + [last];
      assert forall id :: multiset(ids)[id] == multiset(front)[id] + if id == last then 1 else 0;
      OnceEach(front);
      assert multiset(front)[last] == 0;
      assert (set id | id in ids) == (set id | id in front) + {last};
    }
  }

  lemma {:induction false} IdsOf(docs: set<Document>)
    requires forall a, b :: a in docs && b in docs && a.id == b.id ==> a == b
    ensures |set d | d in docs :: d.id| == |docs|
  {
    if docs == {} {
      assert (set d | d in docs :: d.id) == {};
    } else {
      var one :| one in docs;
      var rest := docs - {one};
      IdsOf(rest);
      assert (set d | d in docs :: d.id) == (set d | d in rest :: d.id) + {one.id};
    }
  }

  /** The badge at the top counts the documents that have a shelf; the flag, whether a gap or a signature is open. */
  lemma RootBadge(input: Input)
    requires UniqueIds(input)
    ensures var root := Rolled(TreeOf(input));
            && Settled(root)
            && root.total == |set d | d in input.documents && HasShelf(input, d)|
            && (root.attention <==> input.gaps > 0 || input.pendingSignatures > 0)
  {
    var tree, ids := TreeOf(input), Contents(TreeOf(input));
    var shelved := set d | d in input.documents && HasShelf(input, d);
    hide TreeOf, Rolled, HasShelf;
    RolledIsSettled(tree);
    forall id ensures multiset(ids)[id] == if exists d :: d in shelved && d.id == id then 1 else 0 {
      ContentsCount(tree, id);
      FiledExactlyOnce(input, id);
      if d :| d in input.documents && d.id == id && HasShelf(input, d) {
        assert d in shelved;
      }
    }
    OnceEach(ids);
    IdsOf(shelved);
    assert (set id | id in ids) == set d | d in shelved :: d.id by {
      forall id ensures id in ids <==> exists d :: d in shelved && d.id == id {
        assert id in ids <==> multiset(ids)[id] > 0;
      }
    }
    FlagsRaised(input);
  }

  lemma FlagsRaised(input: Input)
    ensures Flagged(TreeOf(input)) <==> input.gaps > 0 || input.pendingSignatures > 0
  {
    var tree, company := TreeOf(input), CompanyFolder(input);
    assert tree.children[0] == company && tree.children[1] == ProjectsFolder(input);
    assert Flagged(company.children[0]) <==> input.gaps > 0;
    assert Flagged(company.children[1]) <==> input.pendingSignatures > 0;
    assert !Flagged(company.children[2]);
    assert !Flagged(ProjectsFolder(input)) by { ProjectsUnflagged(input); }
  }

  lemma ProjectsUnflagged(input: Input)
    ensures !Flagged(ProjectsFolder(input))
  {
    hide PermitFolders, SectionFolders, PermitFolder;
    forall k | 0 <= k < |input.projects| ensures !Flagged(ProjectsFolder(input).children[k]) {
      ProjectAt(input, |input.projects|, k);
      var project := ProjectFolder(input, input.projects[k]);
      forall i | 0 <= i < |project.children| ensures !Flagged(project.children[i]) {
        var n := PermitAt(input, input.projects[k], |input.permits|, i);
        PermitUnflagged(input, input.projects[k], input.permits[n].id);
      }
    }
  }

  lemma {:induction false} PermitAt(input: Input, project: Id, n: nat, k: nat) returns (i: nat)
    requires n <= |input.permits| && k < |PermitFolders(input, project, n)|
    ensures i < n && input.permits[i].projectId == project
    ensures PermitFolders(input, project, n)[k] == PermitFolder(input, project, input.permits[i].id)
  {
    hide PermitFolder;
    if k < |PermitFolders(input, project, n - 1)| {
      i := PermitAt(input, project, n - 1, k);
    } else {
      i := n - 1;
    }
  }

  lemma PermitUnflagged(input: Input, project: Id, permit: Id)
    ensures !Flagged(PermitFolder(input, project, permit))
  {
    var f := PermitFolder(input, project, permit);
    forall s | 0 <= s < SECTIONS ensures !Flagged(f.children[s]) {
      SectionAt(DocumentsOf(input, permit), project, permit, SECTIONS, s);
    }
  }

  // ---- searching ----

  function FindFolder(root: Folder, path: Path): Option<Folder>
    decreases root, |root.children| + 1
  {
    if root.path == path then Some(root) else FindFrom(root, 0, path)
  }

  function FindFrom(root: Folder, i: nat, path: Path): Option<Folder>
    requires i <= |root.children|
    decreases root, |root.children| - i
  {
    if i == |root.children| then None
    else
      var hit := FindFolder(root.children[i], path);
      if hit.Some? then hit else FindFrom(root, i + 1, path)
  }

  function FolderTrail(root: Folder, path: Path): seq<Folder>
    decreases root, |root.children| + 1
  {
    if root.path == path then [root] else TrailFrom(root, 0, path)
  }

  function TrailFrom(root: Folder, i: nat, path: Path): seq<Folder>
    requires i <= |root.children|
    decreases root, |root.children| - i
  {
    if i == |root.children| then []
    else
      var trail := FolderTrail(root.children[i], path);
      if |trail| > 0 then [root] + trail else TrailFrom(root, i + 1, path)
  }

  /** Some folder of the tree has this path. */
  predicate Has(f: Folder, path: Path)
    decreases f
  {
    f.path == path || exists i :: 0 <= i < |f.children| && Has(f.children[i], path)
  }

  lemma {:induction false} FindsIff(f: Folder, path: Path)
    ensures FindFolder(f, path).Some? <==> Has(f, path)
    ensures FindFolder(f, path).Some? ==> FindFolder(f, path).value.path == path
    decreases f, |f.children| + 1
  {
    if f.path != path {
      FindsFromIff(f, 0, path);
    }
  }

  lemma {:induction false} FindsFromIff(f: Folder, i: nat, path: Path)
    requires i <= |f.children|
    ensures FindFrom(f, i, path).Some? <==> exists k :: i <= k < |f.children| && Has(f.children[k], path)
    ensures FindFrom(f, i, path).Some? ==> FindFrom(f, i, path).value.path == path
    decreases f, |f.children| - i
  {
    if i < |f.children| {
      FindsIff(f.children[i], path);
      FindsFromIff(f, i + 1, path);
    }
  }

  /**
   * A chain of folders from `root` down to one at `path`, each a child of the one before, and only the last at that
   * path.
   */
  ghost predicate LeadsTo(trail: seq<Folder>, root: Folder, path: Path) {
    && |trail| > 0 && trail[0] == root && trail[|trail| - 1].path == path
    && (forall i :: 0 <= i < |trail| - 1 ==> trail[i + 1] in trail[i].children && trail[i].path != path)
  }

  /** The trail is empty exactly when nothing is found; otherwise it leads from the root to what is found. */
  lemma {:induction false} TrailLeadsToFind(root: Folder, path: Path)
    ensures var trail, hit := FolderTrail(root, path), FindFolder(root, path);
            if hit == None then trail == [] else LeadsTo(trail, root, path) && trail[|trail| - 1] == hit.value
    decreases root, |root.children| + 1
  {
    if root.path != path {
      TrailFromLeads(root, 0, path);
    }
  }

  lemma {:induction false} TrailFromLeads(root: Folder, i: nat, path: Path)
    requires i <= |root.children| && root.path != path
    ensures var trail, hit := TrailFrom(root, i, path), FindFrom(root, i, path);
            if hit == None then trail == [] else LeadsTo(trail, root, path) && trail[|trail| - 1] == hit.value
    decreases root, |root.children| - i
  {
    if i < |root.children| {
      TrailLeadsToFind(root.children[i], path);
      if FindFolder(root.children[i], path) == None {
        TrailFromLeads(root, i + 1, path);
      }
    }
  }

  // ---- where a document is found ----

  ghost predicate Under(f: Folder, prefix: Path)
    decreases f
  {
    prefix <= f.path && forall i :: 0 <= i < |f.children| ==> Under(f.children[i], prefix)
  }

  lemma {:induction false} UnderMisses(f: Folder, prefix: Path, path: Path)
    requires Under(f, prefix) && !(prefix <= path)
    ensures FindFolder(f, path) == None
    decreases f, |f.children| + 1
  {
    UnderMissesFrom(f, 0, prefix, path);
  }

  lemma {:induction false} UnderMissesFrom(f: Folder, i: nat, prefix: Path, path: Path)
    requires Under(f, prefix) && !(prefix <= path) && i <= |f.children|
    ensures FindFrom(f, i, path) == None
    decreases f, |f.children| - i
  {
    if i < |f.children| {
      UnderMisses(f.children[i], prefix, path);
      UnderMissesFrom(f, i + 1, prefix, path);
    }
  }

  /** If the search of some child gives `hit`, and that of every other child the same or nothing, so does the whole. */
  lemma {:induction false} FoundAmong(f: Folder, i: nat, k: nat, path: Path, hit: Folder)
    requires i <= k < |f.children| && FindFolder(f.children[k], path) == Some(hit)
    requires forall j :: i <= j < |f.children| ==> FindFolder(f.children[j], path) in {None, Some(hit)}
    ensures FindFrom(f, i, path) == Some(hit)
    decreases k - i
  {
    if i < k {
      FoundAmong(f, i + 1, k, path, hit);
    }
  }

  function SectionOf(c: Category): (s: nat)
    requires HasSection(c)
    ensures s < SECTIONS && c in SectionCategories(s)
  {
    match c
    case PlanSet => 0
    case Submittal => 1
    case ProductApproval => 2
    case CorrectionResponse => 3
    case JobPhoto => 4
    case SupervisionPhoto => 4
    case AgencyIssued => 5
  }

  lemma KeysAreDistinct(a: nat, b: nat)
    requires a < SECTIONS && b < SECTIONS && SectionKey(a) == SectionKey(b)
    ensures a == b
  {
    assert |SectionKey(a)| == |SectionKey(b)| && SectionKey(a)[0] == SectionKey(b)[0]
           && SectionKey(a)[1] == SectionKey(b)[1];
  }

  /** The name under which each category is filed. */
  function ShelfOf(c: Category): string {
    match c
    case PlanSet => "plans"
    case Submittal => "submittal"
    case ProductApproval => "product-approval"
    case CorrectionResponse => "corrections"
    case JobPhoto => "photos"
    case SupervisionPhoto => "photos"
    case AgencyIssued => "from-agency"
    case Compliance => "compliance"
    case SignedAgreement => "agreements"
    case OtherCategory => "tax"
  }

  lemma ShelvesDiffer(a: Category, b: Category)
    ensures ShelfOf(a) == ShelfOf(b)
       <==> a == b || (a in {JobPhoto, SupervisionPhoto} && b in {JobPhoto, SupervisionPhoto})
  {
    if ShelfOf(a) == ShelfOf(b) {
      assert |ShelfOf(a)| == |ShelfOf(b)| && ShelfOf(a)[0] == ShelfOf(b)[0];
    }
  }

  lemma SectionShelf(c: Category)
    requires HasSection(c)
    ensures SectionKey(SectionOf(c)) == ShelfOf(c)
    ensures forall d: Category :: d in SectionCategories(SectionOf(c)) <==> ShelfOf(d) == ShelfOf(c)
  {
    forall d: Category ensures d in SectionCategories(SectionOf(c)) <==> ShelfOf(d) == ShelfOf(c) {
      ShelvesDiffer(d, c);
    }
  }

  /** What belongs on a shelf of a permit, or of the company, in the order of the rows. */
  function Shelved(docs: seq<Document>, n: nat, permit: Option<Id>, shelf: string): seq<Id>
    requires n <= |docs|
  {
    if n == 0 then []
    else
      var d := docs[n - 1];
      var rest := Shelved(docs, n - 1, permit, shelf);
      if (if d.OnPermit() then permit == d.permitId else permit == None) && ShelfOf(d.category) == shelf
      then rest + [d.id] else rest
  }

  lemma {:induction false} PickedIsShelved(docs: seq<Document>, n: nat, permit: Option<Id>, categories: set<Category>,
      shelf: string)
    requires n <= |docs|
    requires forall i :: 0 <= i < n ==> (docs[i].category in categories <==> ShelfOf(docs[i].category) == shelf)
    ensures PickAll(Filed(docs, n, permit), categories) == Shelved(docs, n, permit, shelf)
  {
    hide ShelfOf;
    if n > 0 {
      PickedIsShelved(docs, n - 1, permit, categories, shelf);
      var before, now := Filed(docs, n - 1, permit), Filed(docs, n, permit);
      if now != before {
        PickPrefix(now, before, |before|, categories);
      }
    }
  }

  lemma {:induction false} PickPrefix(a: seq<Document>, b: seq<Document>, n: nat, categories: set<Category>)
    requires n <= |a| && n <= |b| && forall i :: 0 <= i < n ==> a[i] == b[i]
    ensures Pick(a, n, categories) == Pick(b, n, categories)
  {
    if n > 0 {
      PickPrefix(a, b, n - 1, categories);
    }
  }

  lemma {:induction false} NoPermitNothingShelved(docs: seq<Document>, n: nat, shelf: string)
    requires n <= |docs|
    ensures Shelved(docs, n, Some(""), shelf) == []
  {
    hide ShelfOf;
    if n > 0 {
      NoPermitNothingShelved(docs, n - 1, shelf);
    }
  }

  /** Rolling up changes neither what is where nor what lies in it. */
  lemma {:induction false} FindRolled(f: Folder, path: Path)
    ensures var hit, rolled := FindFolder(f, path), FindFolder(Rolled(f), path);
            rolled == if hit.Some? then Some(Rolled(hit.value)) else None
    decreases f, |f.children| + 1
  {
    if f.path != path {
      FindRolledFrom(f, 0, path);
    }
  }

  lemma {:induction false} FindRolledFrom(f: Folder, i: nat, path: Path)
    requires i <= |f.children|
    ensures var hit, rolled := FindFrom(f, i, path), FindFrom(Rolled(f), i, path);
            rolled == if hit.Some? then Some(Rolled(hit.value)) else None
    decreases f, |f.children| - i
  {
    RolledParts(f);
    if i < |f.children| {
      RolledAt(f, |f.children|, i);
      FindRolled(f.children[i], path);
      FindRolledFrom(f, i + 1, path);
    }
  }

  /** A leaf folder shows how many documents it holds. */
  function Leaf(path: Path, ids: seq<Id>, attention: bool): Folder {
    Folder(path, [], ids, |ids|, attention)
  }

  lemma RolledLeaf(path: Path, ids: seq<Id>, attention: bool)
    ensures Rolled(Fresh(path, [], ids, attention)) == Leaf(path, ids, attention)
  {
  }

  lemma SectionFound(docs: seq<Document>, project: Id, permit: Id, f: Folder, s: nat)
    requires s < SECTIONS && |f.path| == 4 && f.children == SectionFolders(docs, project, permit, SECTIONS)
    ensures var path := ["projects", project, "permits", permit, SectionKey(s)];
            FindFolder(f, path) == Some(SectionFolder(docs, project, permit, s))
  {
    hide SectionKey, PickAll;
    var path, hit := ["projects", project, "permits", permit, SectionKey(s)], SectionFolder(docs, project, permit, s);
    forall j | 0 <= j < SECTIONS ensures FindFolder(f.children[j], path) == if j == s then Some(hit) else None {
      SectionAt(docs, project, permit, SECTIONS, j);
      if j != s {
        if SectionKey(j) == SectionKey(s) {
          KeysAreDistinct(j, s);
        }
        assert f.children[j].path[4] != path[4];
      }
    }
    FoundAmong(f, 0, s, path, hit);
  }

  lemma PermitIsUnder(input: Input, project: Id, permit: Id)
    ensures Under(PermitFolder(input, project, permit), ["projects", project, "permits", permit])
  {
    hide SectionKey, PickAll;
    var f, prefix := PermitFolder(input, project, permit), ["projects", project, "permits", permit];
    forall s | 0 <= s < SECTIONS ensures Under(f.children[s], prefix) {
      SectionAt(DocumentsOf(input, permit), project, permit, SECTIONS, s);
      assert f.children[s].path[..4] == prefix;
    }
  }

  lemma ProjectIsUnder(input: Input, project: Id)
    ensures Under(ProjectFolder(input, project), ["projects", project])
  {
    hide PermitFolder, PermitFolders;
    var f := ProjectFolder(input, project);
    forall k | 0 <= k < |f.children| ensures Under(f.children[k], ["projects", project]) {
      var i := PermitAt(input, project, |input.permits|, k);
      PermitIsUnder(input, project, input.permits[i].id);
      Shorter(f.children[k], ["projects", project, "permits", input.permits[i].id], ["projects", project]);
    }
  }

  lemma {:induction false} Shorter(f: Folder, prefix: Path, shorter: Path)
    requires Under(f, prefix) && shorter <= prefix
    ensures Under(f, shorter)
    decreases f
  {
    forall i | 0 <= i < |f.children| ensures Under(f.children[i], shorter) {
      Shorter(f.children[i], prefix, shorter);
    }
  }

  lemma {:induction false} PermitListed(input: Input, project: Id, n: nat, i: nat) returns (k: nat)
    requires i < n <= |input.permits| && input.permits[i].projectId == project
    ensures k < |PermitFolders(input, project, n)|
    ensures PermitFolders(input, project, n)[k] == PermitFolder(input, project, input.permits[i].id)
  {
    hide PermitFolder;
    if i < n - 1 {
      k := PermitListed(input, project, n - 1, i);
    } else {
      k := |PermitFolders(input, project, n - 1)|;
    }
  }

  lemma FoundInProject(input: Input, project: Id, i: nat, s: nat)
    requires i < |input.permits| && input.permits[i].projectId == project && s < SECTIONS
    ensures var permit := input.permits[i].id;
            FindFolder(ProjectFolder(input, project), ["projects", project, "permits", permit, SectionKey(s)])
              == Some(SectionFolder(DocumentsOf(input, permit), project, permit, s))
  {
    hide SectionKey, PermitFolders, SectionFolder;
    var permit, f := input.permits[i].id, ProjectFolder(input, project);
    var path, hit := ["projects", project, "permits", permit, SectionKey(s)],
        SectionFolder(DocumentsOf(input, permit), project, permit, s);
    SectionFound(DocumentsOf(input, permit), project, permit, PermitFolder(input, project, permit), s);
    forall k | 0 <= k < |f.children| ensures FindFolder(f.children[k], path) in {None, Some(hit)} {
      var n := PermitAt(input, project, |input.permits|, k);
      var other := input.permits[n].id;
      if other != permit {
        PermitIsUnder(input, project, other);
        MissesPrefix(["projects", project, "permits", other], path, 3);
        UnderMisses(f.children[k], ["projects", project, "permits", other], path);
      }
    }
    var k := PermitListed(input, project, |input.permits|, i);
    FoundAmong(f, 0, k, path, hit);
  }

  lemma MissesPrefix(prefix: Path, path: Path, i: nat)
    requires i < |prefix| && i < |path| && prefix[i] != path[i]
    ensures !(prefix <= path)
  {
  }

  /**
   * At the path of a shown permit and the name of a section lie exactly the documents of that permit that belong
   * there, in order, with their number on the badge.
   */
  lemma FoundOnItsShelf(input: Input, p: Permit, c: Category)
    requires UniqueIds(input) && p in input.permits && p.projectId in input.projects
    requires c !in {Compliance, SignedAgreement, OtherCategory}
    ensures var path := ["projects", p.projectId, "permits", p.id, ShelfOf(c)];
            FindFolder(Rolled(TreeOf(input)), path)
            == Some(Leaf(path, Shelved(input.documents, |input.documents|, Some(p.id), ShelfOf(c)), false))
  {
    hide ProjectFolder, CompanyFolder, PermitFolders, SectionCategories, SectionKey, ShelfOf, Rolled, Filed, Shelved,
         TreeOf, DocumentsOf, Pick;
    var s, tree := SectionOf(c), TreeOf(input);
    var path := ["projects", p.projectId, "permits", p.id, SectionKey(s)];
    SectionInTree(input, p, s);
    FindRolled(tree, path);
    SectionShelf(c);
    RolledLeaf(path, PickAll(DocumentsOf(input, p.id), SectionCategories(s)), false);
    ShelvedOnPermit(input, p.id, SectionCategories(s), ShelfOf(c));
  }

  lemma ShelvedOnPermit(input: Input, permit: Id, categories: set<Category>, shelf: string)
    requires forall d: Category :: d in categories <==> ShelfOf(d) == shelf
    ensures PickAll(DocumentsOf(input, permit), categories)
            == Shelved(input.documents, |input.documents|, Some(permit), shelf)
  {
    hide Filed, ShelfOf, Shelved;
    if permit == "" {
      NoPermitNothingShelved(input.documents, |input.documents|, shelf);
    } else {
      PickedIsShelved(input.documents, |input.documents|, Some(permit), categories, shelf);
    }
  }

  lemma SectionInTree(input: Input, p: Permit, s: nat)
    requires UniqueIds(input) && p in input.permits && p.projectId in input.projects && s < SECTIONS
    ensures FindFolder(TreeOf(input), ["projects", p.projectId, "permits", p.id, SectionKey(s)])
            == Some(SectionFolder(DocumentsOf(input, p.id), p.projectId, p.id, s))
  {
    hide SectionKey, ProjectFolder, CompanyFolder, PermitFolders, SectionCategories;
    var path, hit := ["projects", p.projectId, "permits", p.id, SectionKey(s)],
        SectionFolder(DocumentsOf(input, p.id), p.projectId, p.id, s);
    var i :| 0 <= i < |input.permits| && input.permits[i] == p;
    var n :| 0 <= n < |input.projects| && input.projects[n] == p.projectId;
    FoundInProject(input, p.projectId, i, s);
    var tree, projects := TreeOf(input), ProjectsFolder(input);
    forall k | 0 <= k < |projects.children| ensures FindFolder(projects.children[k], path) in {None, Some(hit)} {
      ProjectAt(input, |input.projects|, k);
      if input.projects[k] != p.projectId {
        ProjectIsUnder(input, input.projects[k]);
        MissesPrefix(["projects", input.projects[k]], path, 1);
        UnderMisses(projects.children[k], ["projects", input.projects[k]], path);
      }
    }
    ProjectAt(input, |input.projects|, n);
    FoundAmong(projects, 0, n, path, hit);
    CompanyMisses(input, path);
    assert tree.children[0] == CompanyFolder(input) && tree.children[1] == projects;
    FoundAmong(tree, 0, 1, path, hit);
  }

  lemma {:induction false} CompanyMisses(input: Input, path: Path)
    requires |path| > 0 && path[0] == "projects"
    ensures FindFolder(CompanyFolder(input), path) == None
  {
    hide PickAll;
    var f := CompanyFolder(input);
    assert "company" != "projects" by { assert "company"[0] != "projects"[0]; }
    forall i | 0 <= i < |f.children| ensures Under(f.children[i], ["company"]) {
      assert f.children[i].path[..1] == ["company"];
    }
    assert f.path == ["company"];
    MissesPrefix(["company"], path, 0);
    UnderMisses(f, ["company"], path);
  }

  /**
   * The same for the three shelves of the company; the shelf of the insurance papers is flagged while a gap is open,
   * that of the agreements while a signature is.
   */
  lemma CompanyFoundOnItsShelf(input: Input, c: Category)
    requires c in {Compliance, SignedAgreement, OtherCategory}
    ensures var path := ["company", ShelfOf(c)];
            FindFolder(Rolled(TreeOf(input)), path)
            == Some(Leaf(path, Shelved(input.documents, |input.documents|, None, ShelfOf(c)),
                         || (c == Compliance && input.gaps > 0)
                         || (c == SignedAgreement && input.pendingSignatures > 0)))
  {
    hide Filed, Pick, ShelfOf, Shelved, TreeOf, Rolled;
    var docs, tree := input.documents, TreeOf(input);
    var path := ["company", ShelfOf(c)];
    ShelfInTree(input, c);
    FindRolled(tree, path);
    forall d: Category ensures d in {c} <==> ShelfOf(d) == ShelfOf(c) {
      ShelvesDiffer(d, c);
    }
    PickedIsShelved(docs, |docs|, None, {c}, ShelfOf(c));
    RolledLeaf(path, PickAll(Filed(docs, |docs|, None), {c}), c == Compliance && input.gaps > 0);
    RolledLeaf(path, PickAll(Filed(docs, |docs|, None), {c}), c == SignedAgreement && input.pendingSignatures > 0);
  }

  lemma ShelfInTree(input: Input, c: Category)
    requires c in {Compliance, SignedAgreement, OtherCategory}
    ensures FindFolder(TreeOf(input), ["company", ShelfOf(c)])
            == Some(Fresh(["company", ShelfOf(c)], [], PickAll(Filed(input.documents, |input.documents|, None), {c}),
                          || (c == Compliance && input.gaps > 0)
                          || (c == SignedAgreement && input.pendingSignatures > 0)))
  {
    hide Filed, Pick, ProjectFolders;
    var docs, tree, company := Filed(input.documents, |input.documents|, None), TreeOf(input), CompanyFolder(input);
    var path := ["company", ShelfOf(c)];
    var k := if c == Compliance then 0 else if c == SignedAgreement then 1 else 2;
    var hit := company.children[k];
    ShelvesAreDistinct();
    forall i | 0 <= i < 3 ensures FindFolder(company.children[i], path) == if i == k then Some(hit) else None {
      assert company.children[i].path[1] == path[1] <==> i == k;
    }
    assert |company.path| == 1 && |tree.path| == 0;
    FoundAmong(company, 0, k, path, hit);
    assert tree.children[0] == company && tree.children[1] == ProjectsFolder(input);
    ProjectsMiss(input, path);
    FoundAmong(tree, 0, 0, path, hit);
  }

  lemma ShelvesAreDistinct()
    ensures "compliance" != "agreements" && "compliance" != "tax" && "agreements" != "tax" && "company" != "projects"
  {
    assert |"tax"| == 3 && |"compliance"| == 10 && |"agreements"| == 10;
    assert "compliance"[0] != "agreements"[0] && "company"[0] != "projects"[0];
  }

  lemma ProjectsMiss(input: Input, path: Path)
    requires |path| > 0 && path[0] == "company"
    ensures FindFolder(ProjectsFolder(input), path) == None
  {
    hide ProjectFolder;
    ShelvesAreDistinct();
    var f := ProjectsFolder(input);
    forall k | 0 <= k < |f.children| ensures Under(f.children[k], ["projects"]) {
      ProjectAt(input, |input.projects|, k);
      ProjectIsUnder(input, input.projects[k]);
      Shorter(f.children[k], ["projects", input.projects[k]], ["projects"]);
    }
    MissesPrefix(["projects"], path, 0);
    UnderMisses(f, ["projects"], path);
  }
}
