/** The family-tree page of src/pages/TreeView.jsx: the one-hop tree
    assembler (`FamilyTree`), the relation editor (`AddRelation`) and the
    page state (`TreeView`). Backend reads and writes are outside the
    model: fetched lists are parameters, and a submitted relation is the
    record handed to the create call. */
module TreeViewPage {
  import opened Wrappers
  import opened Records

  // ---------------------------------------------------------------------
  // Tree assembly

  /** The row mentions `id` as its person or as its parent. */
  predicate Touches(r: RelationRow, id: Id) {
    r.personId == Some(id) || r.parentId == Some(id)
  }

  /** `getRelativesForPerson`: the rows that mention `id` on either side,
      in their original order. */
  function RelativesOf(relations: seq<RelationRow>, id: Id): (r: seq<RelationRow>)
    ensures forall x :: x in r <==> x in relations && Touches(x, id)
    ensures |r| <= |relations|
  {
    if relations == [] then []
    else (if Touches(relations[0], id) then [relations[0]] else []) + RelativesOf(relations[1..], id)
  }

  /** `r` records `parent` as a parent of `centre` (with the join resolved). */
  predicate ParentRowOf(r: RelationRow, centre: Id, parent: Person) {
    r.personId == Some(centre) && r.parent == Some(parent)
  }

  /** `r` records `child` as a child of `centre` (with the join resolved). */
  predicate ChildRowOf(r: RelationRow, centre: Id, child: Person) {
    r.parentId == Some(centre) && r.person == Some(child)
  }

  /** `.filter(rel => rel.person_id === centre).map(rel => rel.parent).filter(Boolean)` */
  function JoinedParents(relations: seq<RelationRow>, centre: Id): (ps: seq<Person>)
    ensures |ps| <= |relations|
  {
    if relations == [] then []
    else
      var r := relations[0];
      (if r.personId == Some(centre) && r.parent.Some? then [r.parent.value] else [])
      + JoinedParents(relations[1..], centre)
  }

  /** The parents are exactly the joined records of the rows that record
      them, missing joins dropped. */
  lemma {:induction false} JoinedParentsMembers(relations: seq<RelationRow>, centre: Id)
    ensures forall p :: p in JoinedParents(relations, centre) <==> exists r :: r in relations && ParentRowOf(r, centre, p)
  {
    if relations != [] {
      JoinedParentsMembers(relations[1..], centre);
      var r := relations[0];
      forall p
        ensures p in JoinedParents(relations, centre) <==> exists x :: x in relations && ParentRowOf(x, centre, p)
      {
        if ParentRowOf(r, centre, p) {
          assert r in relations;
        }
        if exists x :: x in relations && ParentRowOf(x, centre, p) {
          var x :| x in relations && ParentRowOf(x, centre, p);
          if x != r {
            assert x in relations[1..];
          }
        }
      }
    }
  }

  /** `.filter(rel => rel.parent_id === centre).map(rel => rel.person).filter(Boolean)` */
  function JoinedChildren(relations: seq<RelationRow>, centre: Id): (cs: seq<Person>)
    ensures |cs| <= |relations|
  {
    if relations == [] then []
    else
      var r := relations[0];
      (if r.parentId == Some(centre) && r.person.Some? then [r.person.value] else [])
      + JoinedChildren(relations[1..], centre)
  }

  /** The children are exactly the joined records of the rows that record
      them, missing joins dropped. */
  lemma {:induction false} JoinedChildrenMembers(relations: seq<RelationRow>, centre: Id)
    ensures forall c :: c in JoinedChildren(relations, centre) <==> exists r :: r in relations && ChildRowOf(r, centre, c)
  {
    if relations != [] {
      JoinedChildrenMembers(relations[1..], centre);
      var r := relations[0];
      forall c
        ensures c in JoinedChildren(relations, centre) <==> exists x :: x in relations && ChildRowOf(x, centre, c)
      {
        if ChildRowOf(r, centre, c) {
          assert r in relations;
        }
        if exists x :: x in relations && ChildRowOf(x, centre, c) {
          var x :| x in relations && ChildRowOf(x, centre, c);
          if x != r {
            assert x in relations[1..];
          }
        }
      }
    }
  }

  /** What the tree component lays out: parents above, the centre, children below. */
  datatype Tree = Tree(parents: seq<Person>, center: Person, children: seq<Person>)

  /** `FamilyTree`: parents and children of the centre, one hop each way,
      taken from the rows that mention it. The page's people list, which the
      component receives, plays no part. */
  function FamilyTree(center: Person, relations: seq<RelationRow>): (t: Tree)
    ensures t.center == center
    ensures t.parents == JoinedParents(relations, center.id)
    ensures t.children == JoinedChildren(relations, center.id)
  {
    var relatives := RelativesOf(relations, center.id);
    RelativesKeepParentsAndChildren(relations, center.id);
    Tree(JoinedParents(relatives, center.id), center, JoinedChildren(relatives, center.id))
  }

  /** Narrowing to the rows that mention the centre loses no parent and no
      child: the prefilter only saves work. */
  lemma {:induction false} RelativesKeepParentsAndChildren(relations: seq<RelationRow>, id: Id)
    ensures JoinedParents(RelativesOf(relations, id), id) == JoinedParents(relations, id)
    ensures JoinedChildren(RelativesOf(relations, id), id) == JoinedChildren(relations, id)
  {
    if relations != [] {
      var r := relations[0];
      RelativesKeepParentsAndChildren(relations[1..], id);
      var rest := RelativesOf(relations[1..], id);
      if Touches(r, id) {
        assert RelativesOf(relations, id) == [r] + rest;
        assert ([r] + rest)[1..] == rest;
      } else {
        assert RelativesOf(relations, id) == rest;
      }
    }
  }

  /** Order is kept: the relatives of a concatenation are the relatives of
      each part, one after the other. */
  lemma {:induction false} RelativesOfAppend(a: seq<RelationRow>, b: seq<RelationRow>, id: Id)
    ensures RelativesOf(a + b, id) == RelativesOf(a, id) + RelativesOf(b, id)
  {
    if a == [] {
      assert a + b == b;
    } else {
      assert (a + b)[1..] == a[1..] + b;
      RelativesOfAppend(a[1..], b, id);
    }
  }

  /** Parents and children keep the order of the rows they come from. */
  lemma JoinedAppend(a: seq<RelationRow>, b: seq<RelationRow>, centre: Id)
    ensures JoinedParents(a + b, centre) == JoinedParents(a, centre) + JoinedParents(b, centre)
    ensures JoinedChildren(a + b, centre) == JoinedChildren(a, centre) + JoinedChildren(b, centre)
  {
    JoinedParentsAppend(a, b, centre);
    JoinedChildrenAppend(a, b, centre);
  }

  lemma {:induction false} JoinedParentsAppend(a: seq<RelationRow>, b: seq<RelationRow>, centre: Id)
    ensures JoinedParents(a + b, centre) == JoinedParents(a, centre) + JoinedParents(b, centre)
  {
    if a == [] {
      assert a + b == b;
    } else {
      assert (a + b)[0] == a[0];
      assert (a + b)[1..] == a[1..] + b;
      JoinedParentsAppend(a[1..], b, centre);
    }
  }

  lemma {:induction false} JoinedChildrenAppend(a: seq<RelationRow>, b: seq<RelationRow>, centre: Id)
    ensures JoinedChildren(a + b, centre) == JoinedChildren(a, centre) + JoinedChildren(b, centre)
  {
    if a == [] {
      assert a + b == b;
    } else {
      assert (a + b)[0] == a[0];
      assert (a + b)[1..] == a[1..] + b;
      JoinedChildrenAppend(a[1..], b, centre);
    }
  }

  /** A row whose parent join is missing (every spouse or sibling row, whose
      parent_id is null) adds nothing to anyone's parents, wherever it
      stands; one whose person join is missing adds nothing to anyone's
      children. */
  lemma UnjoinedRowIgnored(a: seq<RelationRow>, r: RelationRow, b: seq<RelationRow>, centre: Id)
    ensures r.parent.None? ==> JoinedParents(a + [r] + b, centre) == JoinedParents(a + b, centre)
    ensures r.person.None? ==> JoinedChildren(a + [r] + b, centre) == JoinedChildren(a + b, centre)
  {
    JoinedAppend(a + [r], b, centre);
    JoinedAppend(a, [r], centre);
    JoinedAppend(a, b, centre);
    assert JoinedParents([r], centre) == [] + JoinedParents([], centre) || r.parent.Some?;
    assert JoinedChildren([r], centre) == [] + JoinedChildren([], centre) || r.person.Some?;
  }

  /** The joined records agree with the keys they were joined on. */
  predicate JoinConsistent(r: RelationRow) {
    (r.person.Some? ==> r.personId == Some(r.person.value.id)) &&
    (r.parent.Some? ==> r.parentId == Some(r.parent.value.id))
  }

  /** The row links a person with itself. */
  predicate SelfLinkedRow(r: RelationRow) {
    r.personId.Some? && (r.parentId == r.personId || r.relatedPersonId == r.personId)
  }

  /** When every row's joins match its keys and no row links a person with
      itself, the centre never appears among its own parents or children.
      The page does not check either condition. */
  lemma CentreNotItsOwnRelative(center: Person, relations: seq<RelationRow>)
    requires forall r :: r in relations ==> JoinConsistent(r) && !SelfLinkedRow(r)
    ensures forall p :: p in FamilyTree(center, relations).parents ==> p.id != center.id
    ensures forall c :: c in FamilyTree(center, relations).children ==> c.id != center.id
  {
    JoinedParentsMembers(relations, center.id);
    JoinedChildrenMembers(relations, center.id);
  }

  /** Without those conditions the centre can be its own parent: a single
      self-linked row is enough. */
  lemma SelfLinkedRowMakesOwnParent(center: Person)
    ensures var row := RelationRow(Some(center.id), Some(center.id), None, "parent", Some(center), Some(center));
      FamilyTree(center, [row]).parents == [center] && FamilyTree(center, [row]).children == [center]
  {
  }

  // ---------------------------------------------------------------------
  // The relation editor

  /** The record handed to the create call. */
  datatype NewRelation = NewRelation(personId: Id, parentId: Option<Id>, relatedPersonId: Option<Id>, relationType: string)

  /** The record links a person with itself. */
  predicate SelfLinked(rec: NewRelation) {
    rec.parentId == Some(rec.personId) || rec.relatedPersonId == Some(rec.personId)
  }

  /** `handleSubmit`'s record: for 'parent' the target is the centre's
      parent, for 'child' the centre is the target's parent (both stored with
      type 'parent'), and any other type links the target as a related
      person with that type. */
  function BuildRelation(relationType: string, centre: Id, target: Id): (rec: NewRelation)
    ensures relationType == "parent" ==>
      rec.personId == centre && rec.parentId == Some(target) && rec.relatedPersonId.None? && rec.relationType == "parent"
    ensures relationType == "child" ==>
      rec.personId == target && rec.parentId == Some(centre) && rec.relatedPersonId.None? && rec.relationType == "parent"
    ensures relationType != "parent" && relationType != "child" ==>
      rec.personId == centre && rec.parentId.None? && rec.relatedPersonId == Some(target) && rec.relationType == relationType
  {
    if relationType == "parent" then NewRelation(centre, Some(target), None, "parent")
    else if relationType == "child" then NewRelation(target, Some(centre), None, "parent")
    else NewRelation(centre, None, Some(target), relationType)
  }

  /** "B is a parent of A", entered on A's page, and "A is a child of B",
      entered on B's page, produce the same record. */
  lemma ParentChildMirror(a: Id, b: Id)
    ensures BuildRelation("parent", a, b) == BuildRelation("child", b, a)
  {
  }

  /** The record links a person with itself exactly when the target is the
      centre. */
  lemma SelfLinkedIffTargetIsCentre(relationType: string, centre: Id, target: Id)
    ensures SelfLinked(BuildRelation(relationType, centre, target)) <==> target == centre
  {
  }

  /** The submit: an empty target makes no record (and no create call);
      otherwise the record of BuildRelation. */
  function Submit(relationType: string, centre: Id, selectedPersonId: string): (created: Option<NewRelation>)
    ensures created.None? <==> selectedPersonId == ""
    ensures created.Some? ==> created.value == BuildRelation(relationType, centre, selectedPersonId)
  {
    if selectedPersonId == "" then None else Some(BuildRelation(relationType, centre, selectedPersonId))
  }

  /** `availablePeople`: everyone but the centre, in order. */
  function AvailablePeople(allPeople: seq<Person>, centre: Id): (r: seq<Person>)
    ensures forall p :: p in r <==> p in allPeople && p.id != centre
    ensures |r| <= |allPeople|
  {
    if allPeople == [] then []
    else (if allPeople[0].id != centre then [allPeople[0]] else []) + AvailablePeople(allPeople[1..], centre)
  }

  /** A value the person select can hold: the placeholder or an offered id. */
  predicate Offered(allPeople: seq<Person>, centre: Id, value: string): (offered: bool)
    ensures offered <==> value == "" || (value != centre && exists p :: p in allPeople && p.id == value)
  {
    value == "" || exists p :: p in AvailablePeople(allPeople, centre) && p.id == value
  }

  /** Whatever the form submits links two different people. */
  lemma SubmittedNeverSelfLinked(relationType: string, allPeople: seq<Person>, centre: Id, value: string)
    requires Offered(allPeople, centre, value)
    ensures Submit(relationType, centre, value).Some? ==> !SelfLinked(Submit(relationType, centre, value).value)
  {
  }

  /** The stored row as a later fetch returns it, with both joins resolved
      against the people table. */
  function Stored(rec: NewRelation, table: seq<Person>): (row: RelationRow)
    ensures row.personId == Some(rec.personId) && row.parentId == rec.parentId
    ensures row.relatedPersonId == rec.relatedPersonId && row.relationType == rec.relationType
  {
    RelationRow(Some(rec.personId), rec.parentId, rec.relatedPersonId, rec.relationType,
      FindById(table, rec.personId),
      if rec.parentId.Some? then FindById(table, rec.parentId.value) else None)
  }

  /** Adding a parent T on C's page puts T last among C's parents, in C's
      tree whenever C is centred, and C last among T's children. */
  lemma AddedParentAppearsInTree(relations: seq<RelationRow>, table: seq<Person>, c: Person, t: Person)
    requires FindById(table, c.id) == Some(c) && FindById(table, t.id) == Some(t)
    ensures var row := Stored(BuildRelation("parent", c.id, t.id), table);
      FamilyTree(c, relations + [row]).parents == FamilyTree(c, relations).parents + [t] &&
      FamilyTree(t, relations + [row]).children == FamilyTree(t, relations).children + [c]
  {
    var row := Stored(BuildRelation("parent", c.id, t.id), table);
    JoinedAppend(relations, [row], c.id);
    JoinedAppend(relations, [row], t.id);
  }

  /** Adding a child T on C's page puts T last among C's children, in C's
      tree whenever C is centred, and C last among T's parents. */
  lemma AddedChildAppearsInTree(relations: seq<RelationRow>, table: seq<Person>, c: Person, t: Person)
    requires FindById(table, c.id) == Some(c) && FindById(table, t.id) == Some(t)
    ensures var row := Stored(BuildRelation("child", c.id, t.id), table);
      FamilyTree(c, relations + [row]).children == FamilyTree(c, relations).children + [t] &&
      FamilyTree(t, relations + [row]).parents == FamilyTree(t, relations).parents + [c]
  {
    var row := Stored(BuildRelation("child", c.id, t.id), table);
    JoinedAppend(relations, [row], c.id);
    JoinedAppend(relations, [row], t.id);
  }

  /** A spouse or sibling relation changes nobody's tree. */
  lemma AddedPeerLeavesTreesUnchanged(relations: seq<RelationRow>, table: seq<Person>, relationType: string, c: Id, t: Id, x: Person)
    requires relationType != "parent" && relationType != "child"
    ensures FamilyTree(x, relations + [Stored(BuildRelation(relationType, c, t), table)]) == FamilyTree(x, relations)
  {
    var row := Stored(BuildRelation(relationType, c, t), table);
    JoinedAppend(relations, [row], x.id);
    assert relations + [] == relations;
  }

  // ---------------------------------------------------------------------
  // Page state

  /** `people.find(p => p.id === id)`: the first person with that id. */
  function FindById(people: seq<Person>, id: string): (found: Option<Person>)
    ensures found.None? <==> forall p :: p in people ==> p.id != id
    ensures found.Some? ==> found.value in people && found.value.id == id
    ensures found.Some? && people != [] && people[0].id == id ==> found.value == people[0]
  {
    if people == [] then None
    else if people[0].id == id then Some(people[0])
    else FindById(people[1..], id)
  }

  /** The person found is the first with that id: none before it matches. */
  lemma {:induction false} FindByIdIsFirst(people: seq<Person>, id: string)
    requires FindById(people, id).Some?
    ensures exists k ::
      0 <= k < |people| && people[k] == FindById(people, id).value && (forall j :: 0 <= j < k ==> people[j].id != id)
  {
    if people[0].id != id {
      FindByIdIsFirst(people[1..], id);
      var k :| 0 <= k < |people[1..]| && people[1..][k] == FindById(people[1..], id).value &&
        forall j :: 0 <= j < k ==> people[1..][j].id != id;
      assert people[k + 1] == FindById(people, id).value;
      forall j | 0 <= j < k + 1
        ensures people[j].id != id
      {
        if j > 0 {
          assert people[j] == people[1..][j - 1];
        }
      }
    }
  }

  /** The relation editor's form state for one centre person. */
  class AddRelation {
    const person: Person
    const allPeople: seq<Person>
    var relationType: string
    var selectedPersonId: string

    /** The person select only ever holds the placeholder or an offered id. */
    ghost predicate Valid()
      reads this
    {
      Offered(allPeople, person.id, selectedPersonId)
    }

    constructor(person: Person, allPeople: seq<Person>)
      ensures this.person == person && this.allPeople == allPeople
      ensures relationType == "parent" && selectedPersonId == ""
      ensures Valid()
    {
      this.person := person;
      this.allPeople := allPeople;
      relationType := "parent";
      selectedPersonId := "";
    }

    /** The type select's `onChange`. */
    method ChooseType(value: string)
      requires Valid()
      modifies this`relationType
      ensures relationType == value && Valid()
    {
      relationType := value;
    }

    /** The person select's `onChange`; its options are the placeholder and
      the available people. */
    method ChoosePerson(value: string)
      requires Offered(allPeople, person.id, value)
      modifies this`selectedPersonId
      ensures selectedPersonId == value && Valid()
    {
      selectedPersonId := value;
    }

    /** `handleSubmit`: the record for the create call, if any. A submitted
      record never links the centre with itself. */
    method HandleSubmit() returns (created: Option<NewRelation>)
      requires Valid()
      ensures created == Submit(relationType, person.id, selectedPersonId)
      ensures created.None? <==> selectedPersonId == ""
      ensures created.Some? ==> created.value == BuildRelation(relationType, person.id, selectedPersonId)
      ensures created.Some? ==> !SelfLinked(created.value)
    {
      if selectedPersonId == "" {
        return None;
      }
      var relationData: NewRelation;
      if relationType == "parent" {
        relationData := NewRelation(person.id, Some(selectedPersonId), None, "parent");
      } else if relationType == "child" {
        relationData := NewRelation(selectedPersonId, Some(person.id), None, "parent");
      } else {
        relationData := NewRelation(person.id, None, Some(selectedPersonId), relationType);
      }
      created := Some(relationData);
    }
  }

  /** The page: the fetched people and relations, the selected centre, and
      whether the relation editor is open. */
  class TreeView {
    var people: seq<Person>
    var relations: seq<RelationRow>
    var selected: Option<Person>
    var showAddRelation: bool
    var loading: bool

    constructor()
      ensures people == [] && relations == [] && selected.None?
      ensures !showAddRelation && loading
    {
      people, relations, selected := [], [], None;
      showAddRelation, loading := false, true;
    }

    /** `loadTreeData` after both fetches returned: missing lists become
      empty, and the first person, if any, becomes the centre; with no
      people the previous selection stays. */
    method LoadTreeData(peopleData: Option<seq<Person>>, relationsData: Option<seq<RelationRow>>)
      modifies this
      ensures people == peopleData.GetOr([]) && relations == relationsData.GetOr([])
      ensures selected == if peopleData.Some? && |peopleData.value| > 0 then Some(peopleData.value[0]) else old(selected)
      ensures showAddRelation == old(showAddRelation) && !loading
    {
      people := peopleData.GetOr([]);
      relations := relationsData.GetOr([]);
      if peopleData.Some? && |peopleData.value| > 0 {
        selected := Some(peopleData.value[0]);
      }
      loading := false;
    }

    /** `loadTreeData` when a fetch threw: only the loading flag drops. */
    method LoadTreeDataFailed()
      modifies this`loading
      ensures !loading
    {
      loading := false;
    }

    /** The centre select's `onChange`: the first person with that id, and
      none for the placeholder or an unknown id. */
    method ChooseFromList(id: string)
      modifies this`selected
      ensures selected == FindById(people, id)
      ensures (forall p :: p in people ==> p.id != id) ==> selected.None?
    {
      selected := FindById(people, id);
    }

    /** A click on a person card re-centres the tree on that person. */
    method SelectPerson(p: Person)
      modifies this`selected
      ensures selected == Some(p)
    {
      selected := Some(p);
    }

    /** The "add relation" button, disabled while no one is selected. */
    method OpenAddRelation()
      modifies this`showAddRelation
      ensures showAddRelation == (old(showAddRelation) || selected.Some?)
    {
      if selected.Some? {
        showAddRelation := true;
      }
    }

    method CancelAddRelation()
      modifies this`showAddRelation
      ensures !showAddRelation
    {
      showAddRelation := false;
    }

    /** The editor's `onSuccess`: close it and reload everything. */
    method RelationAdded(peopleData: Option<seq<Person>>, relationsData: Option<seq<RelationRow>>)
      modifies this
      ensures people == peopleData.GetOr([]) && relations == relationsData.GetOr([])
      ensures selected == if peopleData.Some? && |peopleData.value| > 0 then Some(peopleData.value[0]) else old(selected)
      ensures !showAddRelation && !loading
    {
      showAddRelation := false;
      LoadTreeData(peopleData, relationsData);
    }

    /** The tree shown: that of the selected person, if any. */
    function Shown(): (t: Option<Tree>)
      reads this
      ensures t.Some? <==> selected.Some?
      ensures t.Some? ==> t.value.center == selected.value
      ensures t.Some? ==> t.value.parents == JoinedParents(relations, selected.value.id)
      ensures t.Some? ==> t.value.children == JoinedChildren(relations, selected.value.id)
    {
      if selected.Some? then Some(FamilyTree(selected.value, relations)) else None
    }

    /** The zero-state prompt: loading is over (until then only the spinner
      renders), no one is selected and no people are loaded. */
    predicate ShowsEmptyPrompt(): (prompt: bool)
      reads this
      ensures prompt <==> !loading && Shown().None? && people == []
    {
      !loading && selected.None? && |people| == 0
    }
  }

  /** Opening the page on an empty people list leaves no centre and shows
      the zero-state prompt. */
  method OpenOnEmptyList(relationsData: Option<seq<RelationRow>>) returns (page: TreeView)
    ensures page.selected.None? && page.ShowsEmptyPrompt() && !page.loading
  {
    page := new TreeView();
    page.LoadTreeData(Some([]), relationsData);
  }

  /** Opening the page on a non-empty list centres the tree on its first
      person. */
  method OpenOnList(peopleData: seq<Person>, relationsData: Option<seq<RelationRow>>) returns (page: TreeView)
    requires |peopleData| > 0
    ensures page.Shown() == Some(FamilyTree(peopleData[0], relationsData.GetOr([])))
  {
    page := new TreeView();
    page.LoadTreeData(Some(peopleData), relationsData);
  }
}
