/** A session's trees and handles. Taking a handle out of the opens map is what
    transfers the duty to release it. */
module Sessions {
  import opened Handles
  import opened Seqs

  datatype State = State(dead: bool, trees: set<TreeId>, opens: map<FileId, Open>)

  const FRESH: State := State(false, {}, map[])

  function Values(opens: map<FileId, Open>): set<Open> {
    set f | f in opens :: opens[f]
  }

  /** The handles a TREE_DISCONNECT sweeps. */
  function OnTree(s: State, tree: TreeId): set<FileId> {
    set f | f in s.opens && s.opens[f].tree == tree
  }

  function WithOpen(s: State, o: Open): State { s.(opens := s.opens[o.fileId := o]) }

  predicate CanAdd(s: State) { !s.dead }

  predicate CanAddToTree(s: State, tree: TreeId) { !s.dead && tree in s.trees }

  function Removed(s: State, f: FileId): State { s.(opens := s.opens - {f}) }

  function TreeRemoved(s: State, tree: TreeId): State {
    s.(trees := s.trees - {tree}, opens := s.opens - OnTree(s, tree))
  }

  const EMPTIED: State := State(true, {}, map[])

  class Session {
    var dead: bool
    var trees: set<TreeId>
    var opens: map<FileId, Open>
    var nextTree: TreeId

    function View(): State
      reads this
    {
      State(dead, trees, opens)
    }

    /** No tree id beyond the last one given out is in use. */
    ghost predicate Ok()
      reads this
    {
      forall t :: t in trees ==> t <= nextTree
    }

    constructor ()
      ensures Ok() && View() == FRESH && nextTree == 1
    {
      dead, trees, opens, nextTree := false, {}, map[], 1;
    }

    method AddTree() returns (tree: TreeId)
      requires Ok()
      modifies this
      ensures Ok() && tree !in old(trees) && tree > old(nextTree)
      ensures View() == old(View()).(trees := old(trees) + {tree})
    {
      nextTree := nextTree + 1;
      tree := nextTree;
      trees := trees + {tree};
    }

    method AddOpen(o: Open) returns (ok: bool)
      modifies this`opens
      ensures ok == CanAdd(old(View())) == !old(dead)
      ensures opens == if ok then old(opens)[o.fileId := o] else old(opens)
      ensures View() == if ok then WithOpen(old(View()), o) else old(View())
    {
      if dead {
        return false;
      }
      opens := opens[o.fileId := o];
      return true;
    }

    method AddOpenToTree(o: Open, tree: TreeId) returns (ok: bool)
      modifies this`opens
      ensures ok == CanAddToTree(old(View()), tree) == (!old(dead) && tree in old(trees))
      ensures opens == if ok then old(opens)[o.fileId := o] else old(opens)
      ensures View() == if ok then WithOpen(old(View()), o) else old(View())
    {
      if dead || tree !in trees {
        return false;
      }
      opens := opens[o.fileId := o];
      return true;
    }

    method RemoveOpen(f: FileId) returns (o: Option<Open>)
      modifies this`opens
      ensures o == if f in old(opens) then Some(old(opens)[f]) else None
      ensures View() == Removed(old(View()), f) && opens == old(opens) - {f}
    {
      o := if f in opens then Some(opens[f]) else None;
      opens := opens - {f};
    }

    /** Map iteration order is not fixed, so neither is the order of out. */
    method RemoveTreeAndOpens(tree: TreeId) returns (out: set<Open>)
      modifies this`trees, this`opens
      ensures View() == TreeRemoved(old(View()), tree) && (old(Ok()) ==> Ok())
      ensures out == set f | f in OnTree(old(View()), tree) :: old(opens)[f]
      ensures trees == old(trees) - {tree}
      ensures forall f :: f in opens <==> f in old(opens) && old(opens)[f].tree != tree
      ensures forall f :: f in opens ==> opens[f] == old(opens)[f]
      ensures forall o :: o in out <==> exists f :: f in old(opens) && old(opens)[f] == o && o.tree == tree
    {
      trees := trees - {tree};
      out := {};
      var todo, gone := opens.Keys, {};
      while todo != {}
        invariant todo <= old(opens).Keys
        invariant trees == old(trees) - {tree}
        invariant gone == OnTree(old(View()), tree) - todo
        invariant opens == old(opens) - gone
        invariant out == set f | f in gone :: old(opens)[f]
        decreases todo
      {
        var f :| f in todo;
        todo := todo - {f};
        if opens[f].tree == tree {
          out := out + {opens[f]};
          opens := opens - {f};
          gone := gone + {f};
        }
      }
    }

    method TakeAllOpens() returns (out: set<Open>)
      modifies this`dead, this`trees, this`opens
      ensures View() == EMPTIED && Ok() && dead && opens == map[]
      ensures out == Values(old(opens))
      ensures forall o :: o in out <==> exists f :: f in old(opens) && old(opens)[f] == o
    {
      dead := true;
      out := {};
      var gone := {};
      while opens != map[]
        invariant dead && gone <= old(opens).Keys
        invariant opens == old(opens) - gone
        invariant out == set f | f in gone :: old(opens)[f]
        decreases opens.Keys
      {
        var f :| f in opens;
        out := out + {opens[f]};
        gone := gone + {f};
        opens := opens - {f};
      }
      trees := {};
      assert forall f :: f in old(opens) && f !in gone ==> f in opens;
      assert gone == old(opens).Keys;
    }
  }
}
