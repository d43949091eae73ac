/**
 * Parent and child tables of the relational store (courses -> modules -> submaterials,
 * quizzes -> questions -> choices) and the nested insert loop every create handler runs.
 * A table is a sequence of rows in insertion order; ids come from one increasing counter.
 */
module Tables {
  import opened Common

  /** A row: its auto-increment id, the id of the row it belongs to, and its other columns. */
  datatype Row<D> = Row(id: nat, parent: nat, data: D)

  /** A row of the middle table together with the columns of its children, in table order. */
  datatype Node<P, C> = Node(data: P, children: seq<C>)

  /** One parent of a request payload with its children; `children` is None where the payload has no array. */
  datatype Draft<P, C> = Draft(data: P, children: Option<seq<C>>)

  /** `SELECT data FROM rows WHERE parent = ?`, in table order. */
  function Children<D>(rows: seq<Row<D>>, parent: nat): seq<D>
  {
    if rows == [] then []
    else
      var r := rows[|rows| - 1];
      Children(rows[..|rows| - 1], parent) + (if r.parent == parent then [r.data] else [])
  }

  /** The rows of `ps` that belong to `owner`, each with its children from `cs`. */
  function Tree<P, C>(ps: seq<Row<P>>, cs: seq<Row<C>>, owner: nat): seq<Node<P, C>>
  {
    if ps == [] then []
    else
      var p := ps[|ps| - 1];
      Tree(ps[..|ps| - 1], cs, owner) + (if p.parent == owner then [Node(p.data, Children(cs, p.id))] else [])
  }

  /**
   * The shape the id counter guarantees: ids increase in table order, and every id and
   * parent id already used is below `next`, the id the next insert receives.
   */
  predicate TablesOk<P, C>(ps: seq<Row<P>>, cs: seq<Row<C>>, next: nat)
  {
    && (forall i, j :: 0 <= i < j < |ps| ==> ps[i].id < ps[j].id)
    && (forall i, j :: 0 <= i < j < |cs| ==> cs[i].id < cs[j].id)
    && (forall i :: 0 <= i < |ps| ==> ps[i].id < next && ps[i].parent < next)
    && (forall i :: 0 <= i < |cs| ==> cs[i].id < next && cs[i].parent < next)
  }

  /** `DELETE FROM rows WHERE parent = ?` */
  function WithoutParent<D>(rows: seq<Row<D>>, parent: nat): (r: seq<Row<D>>)
    ensures forall i :: 0 <= i < |r| ==> r[i].parent != parent
  {
    if rows == [] then []
    else
      var last := rows[|rows| - 1];
      WithoutParent(rows[..|rows| - 1], parent) + (if last.parent != parent then [last] else [])
  }

  /** `SELECT id FROM rows WHERE parent = ?` */
  function IdsWithParent<D>(rows: seq<Row<D>>, parent: nat): set<nat>
  {
    set i | 0 <= i < |rows| && rows[i].parent == parent :: rows[i].id
  }

  /** `DELETE FROM rows WHERE parent IN (?)` */
  function WithoutParents<D>(rows: seq<Row<D>>, parents: set<nat>): (r: seq<Row<D>>)
    ensures forall i :: 0 <= i < |r| ==> r[i].parent !in parents
  {
    if rows == [] then []
    else
      var last := rows[|rows| - 1];
      WithoutParents(rows[..|rows| - 1], parents) + (if last.parent !in parents then [last] else [])
  }

  predicate AllPresent<P, C>(items: seq<Draft<P, C>>)
  {
    forall i :: 0 <= i < |items| ==> items[i].children.Some?
  }

  /** What a payload whose parents all carry a child array stores. */
  function Nodes<P, C>(items: seq<Draft<P, C>>): seq<Node<P, C>>
    requires AllPresent(items)
  {
    seq(|items|, i requires 0 <= i < |items| => Node(items[i].data, items[i].children.value))
  }

  // ---------------------------------------------------------------- lemmas

  lemma ChildrenSnoc<D>(rows: seq<Row<D>>, r: Row<D>, parent: nat)
    ensures Children(rows + [r], parent) == Children(rows, parent) + (if r.parent == parent then [r.data] else [])
  {
    assert (rows + [r])[..|rows|] == rows;
  }

  /** A parent id no child row points to has no children. */
  lemma {:induction false} ChildrenNone<D>(rows: seq<Row<D>>, parent: nat)
    requires forall i :: 0 <= i < |rows| ==> rows[i].parent != parent
    ensures Children(rows, parent) == []
  {
    if rows != [] {
      ChildrenNone(rows[..|rows| - 1], parent);
    }
  }

  /** Deleting the children of other parents leaves a parent's children as they were. */
  lemma {:induction false} ChildrenWithoutParents<D>(rows: seq<Row<D>>, parents: set<nat>, parent: nat)
    requires parent !in parents
    ensures Children(WithoutParents(rows, parents), parent) == Children(rows, parent)
  {
    if rows != [] {
      var last := rows[|rows| - 1];
      var pre := rows[..|rows| - 1];
      ChildrenWithoutParents(pre, parents, parent);
      assert Children(rows, parent) == Children(pre, parent) + (if last.parent == parent then [last.data] else []);
      if last.parent !in parents {
        assert WithoutParents(rows, parents) == WithoutParents(pre, parents) + [last];
        ChildrenSnoc(WithoutParents(pre, parents), last, parent);
      } else {
        assert WithoutParents(rows, parents) == WithoutParents(pre, parents);
      }
    }
  }

  lemma TreeSnoc<P, C>(ps: seq<Row<P>>, p: Row<P>, cs: seq<Row<C>>, owner: nat)
    ensures Tree(ps + [p], cs, owner) == Tree(ps, cs, owner) + (if p.parent == owner then [Node(p.data, Children(cs, p.id))] else [])
  {
    assert (ps + [p])[..|ps|] == ps;
  }

  /** A child row whose parent is not one of owner's rows does not change owner's tree. */
  lemma {:induction false} TreeUnrelatedChild<P, C>(ps: seq<Row<P>>, cs: seq<Row<C>>, c: Row<C>, owner: nat)
    requires forall i :: 0 <= i < |ps| && ps[i].parent == owner ==> ps[i].id != c.parent
    ensures Tree(ps, cs + [c], owner) == Tree(ps, cs, owner)
  {
    if ps != [] {
      var p := ps[|ps| - 1];
      var pre := ps[..|ps| - 1];
      TreeUnrelatedChild(pre, cs, c, owner);
      ChildrenSnoc(cs, c, p.id);
      assert Tree(ps, cs + [c], owner) == Tree(pre, cs + [c], owner) + (if p.parent == owner then [Node(p.data, Children(cs + [c], p.id))] else []);
      assert Tree(ps, cs, owner) == Tree(pre, cs, owner) + (if p.parent == owner then [Node(p.data, Children(cs, p.id))] else []);
      if p.parent == owner {
        assert Children(cs + [c], p.id) == Children(cs, p.id);
      }
    }
  }

  /** A child row of owner's last row is appended to that row's children. */
  lemma NewChildOfLast<P, C>(ps: seq<Row<P>>, cs: seq<Row<C>>, c: Row<C>, owner: nat)
    requires ps != [] && ps[|ps| - 1].parent == owner && ps[|ps| - 1].id == c.parent
    requires forall i :: 0 <= i < |ps| - 1 ==> ps[i].id != c.parent
    ensures Tree(ps, cs + [c], owner)
         == Tree(ps[..|ps| - 1], cs, owner) + [Node(ps[|ps| - 1].data, Children(cs, c.parent) + [c.data])]
  {
    var pre := ps[..|ps| - 1];
    TreeUnrelatedChild(pre, cs, c, owner);
    ChildrenSnoc(cs, c, c.parent);
  }

  /** An owner none of whose rows remain has an empty tree. */
  lemma {:induction false} TreeNoOwner<P, C>(ps: seq<Row<P>>, cs: seq<Row<C>>, owner: nat)
    requires forall i :: 0 <= i < |ps| ==> ps[i].parent != owner
    ensures Tree(ps, cs, owner) == []
  {
    if ps != [] {
      TreeNoOwner(ps[..|ps| - 1], cs, owner);
    }
  }

  /** Deleting one owner's rows leaves every other owner's tree as it was. */
  lemma {:induction false} TreeWithoutParent<P, C>(ps: seq<Row<P>>, cs: seq<Row<C>>, gone: nat, owner: nat)
    requires gone != owner
    ensures Tree(WithoutParent(ps, gone), cs, owner) == Tree(ps, cs, owner)
  {
    if ps != [] {
      var p := ps[|ps| - 1];
      var pre := ps[..|ps| - 1];
      TreeWithoutParent(pre, cs, gone, owner);
      if p.parent != gone {
        assert WithoutParent(ps, gone) == WithoutParent(pre, gone) + [p];
        TreeSnoc(WithoutParent(pre, gone), p, cs, owner);
      } else {
        assert WithoutParent(ps, gone) == WithoutParent(pre, gone);
      }
    }
  }

  /** Deleting children of rows that do not belong to owner leaves owner's tree as it was. */
  lemma {:induction false} TreeWithoutParents<P, C>(ps: seq<Row<P>>, cs: seq<Row<C>>, ids: set<nat>, owner: nat)
    requires forall i :: 0 <= i < |ps| && ps[i].parent == owner ==> ps[i].id !in ids
    ensures Tree(ps, WithoutParents(cs, ids), owner) == Tree(ps, cs, owner)
  {
    if ps != [] {
      var p := ps[|ps| - 1];
      TreeWithoutParents(ps[..|ps| - 1], cs, ids, owner);
      if p.parent == owner {
        ChildrenWithoutParents(cs, ids, p.id);
      }
    }
  }

  /** With distinct ids, the rows of another owner never carry an id of owner's rows. */
  lemma OtherOwnerIds<P, C>(ps: seq<Row<P>>, cs: seq<Row<C>>, next: nat, gone: nat, owner: nat)
    requires TablesOk(ps, cs, next) && gone != owner
    ensures forall i :: 0 <= i < |ps| && ps[i].parent == owner ==> ps[i].id !in IdsWithParent(ps, gone)
  {
  }

  /** Every row left by a delete is a row of the table before it. */
  lemma {:induction false} WithoutParentFrom<D>(rows: seq<Row<D>>, gone: nat)
    ensures forall i :: 0 <= i < |WithoutParent(rows, gone)| ==> exists k :: 0 <= k < |rows| && WithoutParent(rows, gone)[i] == rows[k]
  {
    if rows != [] {
      var pre := rows[..|rows| - 1];
      WithoutParentFrom(pre, gone);
      var r := WithoutParent(rows, gone);
      var last := rows[|rows| - 1];
      assert r == WithoutParent(pre, gone) + (if last.parent != gone then [last] else []);
      forall i | 0 <= i < |r| ensures exists k :: 0 <= k < |rows| && r[i] == rows[k] {
        if i < |WithoutParent(pre, gone)| {
          var k :| 0 <= k < |pre| && WithoutParent(pre, gone)[i] == pre[k];
          assert r[i] == WithoutParent(pre, gone)[i];
          assert pre[k] == rows[k];
        } else {
          assert r[i] == rows[|rows| - 1];
        }
      }
    } else {
      assert WithoutParent(rows, gone) == [];
    }
  }

  lemma {:induction false} WithoutParentsFrom<D>(rows: seq<Row<D>>, gone: set<nat>)
    ensures forall i :: 0 <= i < |WithoutParents(rows, gone)| ==> exists k :: 0 <= k < |rows| && WithoutParents(rows, gone)[i] == rows[k]
  {
    if rows != [] {
      var pre := rows[..|rows| - 1];
      WithoutParentsFrom(pre, gone);
      var r := WithoutParents(rows, gone);
      var last := rows[|rows| - 1];
      assert r == WithoutParents(pre, gone) + (if last.parent !in gone then [last] else []);
      forall i | 0 <= i < |r| ensures exists k :: 0 <= k < |rows| && r[i] == rows[k] {
        if i < |WithoutParents(pre, gone)| {
          var k :| 0 <= k < |pre| && WithoutParents(pre, gone)[i] == pre[k];
          assert r[i] == WithoutParents(pre, gone)[i];
          assert pre[k] == rows[k];
        } else {
          assert r[i] == rows[|rows| - 1];
        }
      }
    } else {
      assert WithoutParents(rows, gone) == [];
    }
  }

  lemma {:induction false} WithoutParentIncreasing<D>(ps: seq<Row<D>>, gone: nat)
    requires forall i, j :: 0 <= i < j < |ps| ==> ps[i].id < ps[j].id
    ensures forall i, j :: 0 <= i < j < |WithoutParent(ps, gone)| ==> WithoutParent(ps, gone)[i].id < WithoutParent(ps, gone)[j].id
  {
    if ps != [] {
      var pre := ps[..|ps| - 1];
      WithoutParentIncreasing(pre, gone);
      WithoutParentFrom(pre, gone);
    }
  }

  lemma {:induction false} WithoutParentsIncreasing<D>(cs: seq<Row<D>>, gone: set<nat>)
    requires forall i, j :: 0 <= i < j < |cs| ==> cs[i].id < cs[j].id
    ensures forall i, j :: 0 <= i < j < |WithoutParents(cs, gone)| ==> WithoutParents(cs, gone)[i].id < WithoutParents(cs, gone)[j].id
  {
    if cs != [] {
      var pre := cs[..|cs| - 1];
      WithoutParentsIncreasing(pre, gone);
      WithoutParentsFrom(pre, gone);
    }
  }

  /** The cascade `DELETE children; DELETE rows` of one owner empties its tree and keeps the others'. */
  lemma CascadeDelete<P, C>(ps: seq<Row<P>>, cs: seq<Row<C>>, next: nat, gone: nat)
    requires TablesOk(ps, cs, next)
    ensures Tree(WithoutParent(ps, gone), WithoutParents(cs, IdsWithParent(ps, gone)), gone) == []
    ensures forall o :: o != gone ==>
      Tree(WithoutParent(ps, gone), WithoutParents(cs, IdsWithParent(ps, gone)), o) == Tree(ps, cs, o)
    ensures TablesOk(WithoutParent(ps, gone), WithoutParents(cs, IdsWithParent(ps, gone)), next)
  {
    var ps', cs' := WithoutParent(ps, gone), WithoutParents(cs, IdsWithParent(ps, gone));
    TreeNoOwner(ps', cs', gone);
    forall o | o != gone
      ensures Tree(ps', cs', o) == Tree(ps, cs, o)
    {
      TreeWithoutParent(ps, cs', gone, o);
      OtherOwnerIds(ps, cs, next, gone, o);
      TreeWithoutParents(ps, cs, IdsWithParent(ps, gone), o);
    }
    WithoutParentIncreasing(ps, gone);
    WithoutParentsIncreasing(cs, IdsWithParent(ps, gone));
    WithoutParentFrom(ps, gone);
    WithoutParentsFrom(cs, IdsWithParent(ps, gone));
  }

  // ---------------------------------------------------------------- the insert loop

  /** Inserting a parent row with the next id gives owner one more, still childless, node. */
  lemma AppendParent<P, C>(ps: seq<Row<P>>, cs: seq<Row<C>>, next: nat, owner: nat, data: P)
    requires TablesOk(ps, cs, next) && owner < next
    ensures TablesOk(ps + [Row(next, owner, data)], cs, next + 1)
    ensures Tree(ps + [Row(next, owner, data)], cs, owner) == Tree(ps, cs, owner) + [Node(data, [])]
    ensures forall o :: o != owner ==> Tree(ps + [Row(next, owner, data)], cs, o) == Tree(ps, cs, o)
  {
    ChildrenNone(cs, next);
    TreeSnoc(ps, Row(next, owner, data), cs, owner);
    forall o | o != owner
      ensures Tree(ps + [Row(next, owner, data)], cs, o) == Tree(ps, cs, o)
    {
      TreeSnoc(ps, Row(next, owner, data), cs, o);
    }
  }

  /** Inserting a child of owner's last parent row with the next id extends that node's children. */
  lemma AppendChild<P, C>(ps: seq<Row<P>>, cs: seq<Row<C>>, next: nat, owner: nat, d: C)
    requires TablesOk(ps, cs, next) && ps != [] && ps[|ps| - 1].parent == owner
    ensures TablesOk(ps, cs + [Row(next, ps[|ps| - 1].id, d)], next + 1)
    ensures Tree(ps, cs + [Row(next, ps[|ps| - 1].id, d)], owner)
         == Tree(ps[..|ps| - 1], cs, owner) + [Node(ps[|ps| - 1].data, Children(cs, ps[|ps| - 1].id) + [d])]
    ensures forall o :: o != owner ==> Tree(ps, cs + [Row(next, ps[|ps| - 1].id, d)], o) == Tree(ps, cs, o)
  {
    var c := Row(next, ps[|ps| - 1].id, d);
    NewChildOfLast(ps, cs, c, owner);
    forall o | o != owner
      ensures Tree(ps, cs + [c], o) == Tree(ps, cs, o)
    {
      TreeUnrelatedChild(ps, cs, c, o);
    }
  }

  /**
   * `INSERT p; for (const c of children) INSERT c`: owner gains one node holding `kids`, in
   * order, and nothing else changes.
   */
  method InsertNode<P, C>(ps: seq<Row<P>>, cs: seq<Row<C>>, next: nat, owner: nat, data: P, kids: seq<C>)
    returns (ps': seq<Row<P>>, cs': seq<Row<C>>, next': nat)
    requires TablesOk(ps, cs, next) && owner < next
    ensures TablesOk(ps', cs', next') && next < next'
    ensures Tree(ps', cs', owner) == Tree(ps, cs, owner) + [Node(data, kids)]
    ensures forall o :: o != owner ==> Tree(ps', cs', o) == Tree(ps, cs, o)
  {
    var parent := Row(next, owner, data);
    AppendParent(ps, cs, next, owner, data);
    ChildrenNone(cs, next);
    ps', cs', next' := ps + [parent], cs, next + 1;
    assert ps'[..|ps'| - 1] == ps;
    var j := 0;
    while j < |kids|
      invariant 0 <= j <= |kids|
      invariant TablesOk(ps', cs', next') && next < next'
      invariant Tree(ps, cs', owner) == Tree(ps, cs, owner)
      invariant Children(cs', next) == kids[..j]
      invariant forall o :: o != owner ==> Tree(ps', cs', o) == Tree(ps, cs, o)
    {
      AppendChild(ps', cs', next', owner, kids[j]);
      TreeUnrelatedChild(ps, cs', Row(next', next, kids[j]), owner);
      ChildrenSnoc(cs', Row(next', next, kids[j]), next);
      assert kids[..j + 1] == kids[..j] + [kids[j]];
      cs' := cs' + [Row(next', next, kids[j])];
      next' := next' + 1;
      j := j + 1;
    }
    assert kids[..j] == kids;
    TreeSnoc(ps, parent, cs', owner);
  }

  /**
   * `for (const p of items) { INSERT p; for (const c of p.children) INSERT c }` inside a
   * transaction. It stops at the first parent whose children are not an array (the source
   * throws a TypeError there); the caller then rolls back, so on failure the returned tables
   * are meaningless. On success owner's tree gains exactly `items`, in order, and every
   * other owner's tree is unchanged.
   */
  method InsertTree<P, C>(ps: seq<Row<P>>, cs: seq<Row<C>>, next: nat, owner: nat, items: seq<Draft<P, C>>)
    returns (ok: bool, ps': seq<Row<P>>, cs': seq<Row<C>>, next': nat)
    requires TablesOk(ps, cs, next) && owner < next
    ensures ok <==> AllPresent(items)
    ensures ok ==> TablesOk(ps', cs', next') && next <= next'
    ensures ok ==> Tree(ps', cs', owner) == Tree(ps, cs, owner) + Nodes(items)
    ensures ok ==> forall o :: o != owner ==> Tree(ps', cs', o) == Tree(ps, cs, o)
  {
    ps', cs', next' := ps, cs, next;
    var i := 0;
    while i < |items|
      invariant 0 <= i <= |items|
      invariant AllPresent(items[..i])
      invariant TablesOk(ps', cs', next') && next <= next'
      invariant Tree(ps', cs', owner) == Tree(ps, cs, owner) + Nodes(items[..i])
      invariant forall o :: o != owner ==> Tree(ps', cs', o) == Tree(ps, cs, o)
    {
      if items[i].children.None? {
        return false, ps', cs', next';
      }
      ps', cs', next' := InsertNode(ps', cs', next', owner, items[i].data, items[i].children.value);
      assert Nodes(items[..i + 1]) == Nodes(items[..i]) + [Node(items[i].data, items[i].children.value)];
      i := i + 1;
    }
    assert items[..i] == items;
    ok := true;
  }

  /**
   * `DELETE children of owner's rows; DELETE owner's rows;` then the insert loop: on
   * success owner's tree is exactly `items`, and every other owner's tree is unchanged.
   */
  method ReplaceTree<P, C>(ps: seq<Row<P>>, cs: seq<Row<C>>, next: nat, owner: nat, items: seq<Draft<P, C>>)
    returns (ok: bool, ps': seq<Row<P>>, cs': seq<Row<C>>, next': nat)
    requires TablesOk(ps, cs, next) && owner < next
    ensures ok <==> AllPresent(items)
    ensures ok ==> TablesOk(ps', cs', next') && next <= next'
    ensures ok ==> Tree(ps', cs', owner) == Nodes(items)
    ensures ok ==> forall o :: o != owner ==> Tree(ps', cs', o) == Tree(ps, cs, o)
  {
    var ps1, cs1 := DeleteTree(ps, cs, next, owner);
    ok, ps', cs', next' := InsertTree(ps1, cs1, next, owner, items);
  }

  /** `DELETE children of owner's rows; DELETE owner's rows`: owner's tree empties, the others stay. */
  method DeleteTree<P, C>(ps: seq<Row<P>>, cs: seq<Row<C>>, next: nat, owner: nat)
    returns (ps': seq<Row<P>>, cs': seq<Row<C>>)
    requires TablesOk(ps, cs, next)
    ensures TablesOk(ps', cs', next)
    ensures Tree(ps', cs', owner) == []
    ensures forall o :: o != owner ==> Tree(ps', cs', o) == Tree(ps, cs, o)
  {
    var gone := IdsWithParent(ps, owner);
    CascadeDelete(ps, cs, next, owner);
    cs' := WithoutParents(cs, gone);
    ps' := WithoutParent(ps, owner);
  }
}
