/**
 The tree guard and the steering run on top of it. The guard records what `git status` lists before
 a spawn, lets an agent do anything to the tree, and rebuilds the recorded tree from that listing,
 what status lists afterwards, and HEAD.
 */
module TreeGuard {
  import opened Wrappers
  import opened Text
  import opened Order

  type Bytes = string
  type Tree = map<string, Bytes>

  /** Every path where the tree differs from HEAD, with its bytes there, None when missing. */
  function Status(tree: Tree, head: Tree): (r: map<string, Option<Bytes>>)
    ensures forall p :: p in r <==> Lookup(tree, p) != Lookup(head, p)
    ensures forall p | p in r :: r[p] == Lookup(tree, p)
  {
    map p | p in tree.Keys + head.Keys && Lookup(tree, p) != Lookup(head, p) :: Lookup(tree, p)
  }

  /** The paths outside `keep` on which two trees, or two status listings, disagree. */
  function Changed<V(==)>(before: map<string, V>, after: map<string, V>, keep: string -> bool): (r: set<string>)
    ensures forall p :: p in r <==> !keep(p) && Lookup(before, p) != Lookup(after, p)
  {
    set p | p in before.Keys + after.Keys && !keep(p) && Lookup(before, p) != Lookup(after, p)
  }

  /** A path outside `keep` that matched HEAD before and does not now: only `discard` can put it back. */
  predicate NeedsDiscard(before: Tree, after: Tree, head: Tree, keep: string -> bool, p: string) {
    !keep(p) && Lookup(before, p) == Lookup(head, p) && Lookup(after, p) != Lookup(head, p)
  }

  ghost predicate Named(list: seq<(string, Option<Bytes>)>, p: string) {
    exists k :: 0 <= k < |list| && list[k].0 == p
  }

  lemma NamedGrows(list: seq<(string, Option<Bytes>)>, item: (string, Option<Bytes>))
    ensures forall p :: Named(list + [item], p) <==> Named(list, p) || p == item.0
  {
    forall p ensures Named(list + [item], p) <==> Named(list, p) || p == item.0 {
      assert (list + [item])[|list|] == item;
      if Named(list, p) {
        var k :| 0 <= k < |list| && list[k].0 == p;
        assert (list + [item])[k].0 == p;
      }
    }
  }

  /** Two status listings against one HEAD tell exactly which paths changed between the trees. */
  lemma StatusSuffices(before: Tree, after: Tree, head: Tree, keep: string -> bool)
    ensures Changed(Status(before, head), Status(after, head), keep) == Changed(before, after, keep)
  {
    forall p ensures Lookup(Status(before, head), p) != Lookup(Status(after, head), p) <==>
                     Lookup(before, p) != Lookup(after, p)
    {
      assert p in Status(before, head) ==> Lookup(Status(before, head), p) == Some(Lookup(before, p));
      assert p in Status(after, head) ==> Lookup(Status(after, head), p) == Some(Lookup(after, p));
    }
  }

  /** The comparing loop of `restoreTreeExcept`: what changed, and how each path is put back. */
  method Compare(was: map<string, Option<Bytes>>, now: map<string, Option<Bytes>>, keep: string -> bool)
    returns (restored: seq<string>, rewrite: seq<(string, Option<Bytes>)>, discard: seq<string>)
    ensures Lists(restored, Changed(was, now, keep))
    ensures forall p :: p in discard <==> p in Changed(was, now, keep) && p !in was
    ensures forall p :: Named(rewrite, p) <==> p in Changed(was, now, keep) && p in was
    ensures forall k | 0 <= k < |rewrite| :: Lookup(was, rewrite[k].0) == Some(rewrite[k].1)
  {
    ghost var delta := Changed(was, now, keep);
    var candidates := SortSet(was.Keys + now.Keys);
    restored, rewrite, discard := [], [], [];
    var i := 0;
    while i < |candidates|
      invariant i <= |candidates|
      invariant Sorted(restored)
      invariant forall p :: p in restored <==> p in candidates[..i] && p in delta
      invariant forall p :: p in discard <==> p in restored && p !in was
      invariant forall p :: Named(rewrite, p) <==> p in restored && p in was
      invariant forall k | 0 <= k < |rewrite| :: Lookup(was, rewrite[k].0) == Some(rewrite[k].1)
    {
      var p := candidates[i];
      assert candidates[..i + 1] == candidates[..i] + [p];
      if !keep(p) && Lookup(was, p) != Lookup(now, p) {
        assert forall q | q in restored :: Less(q, p);
        if p in was {
          NamedGrows(rewrite, (p, was[p]));
          rewrite := rewrite + [(p, was[p])];
        } else {
          discard := discard + [p];
        }
        restored := restored + [p];
      }
      i := i + 1;
    }
    assert candidates[..i] == candidates;
  }

  datatype Restored = Done(paths: seq<string>) | Refused

  class Repo {
    var tree: Tree
    const head: Tree
    /** Whether the folder is a linked worktree on an `osq/` branch, as `discard` demands. */
    const linked: bool

    constructor (tree: Tree, head: Tree, linked: bool)
      ensures this.tree == tree && this.head == head && this.linked == linked
    {
      this.tree, this.head, this.linked := tree, head, linked;
    }

    method TreeState() returns (state: map<string, Option<Bytes>>)
      ensures state == Status(tree, head)
    {
      state := map[];
      var todo := Status(tree, head).Keys;
      while todo != {}
        invariant todo <= Status(tree, head).Keys
        invariant state.Keys == Status(tree, head).Keys - todo
        invariant forall p | p in state :: state[p] == Lookup(tree, p)
        decreases todo
      {
        var p :| p in todo;
        state, todo := state[p := Lookup(tree, p)], todo - {p};
      }
    }

    /** `vcs.discard`: put every named path back to HEAD, removing the ones HEAD lacks. */
    method Discard(paths: seq<string>) returns (ok: bool)
      modifies this`tree
      ensures ok <==> linked
      ensures !ok ==> tree == old(tree)
      ensures ok ==> forall p :: Lookup(tree, p) == Lookup(if p in paths then head else old(tree), p)
    {
      ok := linked;
      if !ok { return; }
      var i := 0;
      while i < |paths|
        invariant i <= |paths|
        invariant forall p :: Lookup(tree, p) == Lookup(if p in paths[..i] then head else old(tree), p)
      {
        tree := Assign(tree, paths[i], Lookup(head, paths[i]));
        i := i + 1;
      }
    }

    /** `writeBytes` for every recorded path that changed. */
    method Rewrite(items: seq<(string, Option<Bytes>)>, ghost before: Tree)
      requires forall k | 0 <= k < |items| :: items[k].1 == Lookup(before, items[k].0)
      modifies this`tree
      ensures forall p :: Lookup(tree, p) == Lookup(if Named(items, p) then before else old(tree), p)
    {
      var i := 0;
      while i < |items|
        invariant i <= |items|
        invariant forall p :: Lookup(tree, p) == Lookup(if Named(items[..i], p) then before else old(tree), p)
      {
        assert items[..i + 1] == items[..i] + [items[i]];
        NamedGrows(items[..i], items[i]);
        tree := Assign(tree, items[i].0, items[i].1);
        i := i + 1;
      }
      assert items[..i] == items;
    }

    /** One path once the recorded ones are rewritten and the others discarded. */
    static lemma PutBack(before: Tree, agent: Tree, head: Tree, keep: string -> bool, p: string,
                         rewritten: Tree, discarded: Tree, inRewrite: bool, inDiscard: bool)
      requires Lookup(rewritten, p) == Lookup(if inRewrite then before else agent, p)
      requires Lookup(discarded, p) == Lookup(if inDiscard then head else rewritten, p)
      requires inRewrite || inDiscard <==> p in Changed(before, agent, keep)
      requires inDiscard ==> Lookup(before, p) == Lookup(head, p)
      ensures Lookup(discarded, p) == Lookup(if keep(p) then agent else before, p)
    {
    }

    /**
     `restoreTreeExcept`. Whatever happened to the tree since `snapshot`, every path outside `keep`
     holds its earlier bytes again and the result names exactly the ones that had changed. It
     refuses only when a path clean before is dirty now and `discard` is not allowed here.
     */
    method RestoreTreeExcept(snapshot: map<string, Option<Bytes>>, keep: string -> bool, ghost before: Tree)
      returns (r: Restored)
      requires snapshot == Status(before, head)
      modifies this`tree
      ensures r.Refused? <==> !linked && exists p :: NeedsDiscard(before, old(tree), head, keep, p)
      ensures r.Done? ==> Lists(r.paths, Changed(before, old(tree), keep))
      ensures forall p ::
        Lookup(tree, p) == Lookup(if keep(p) || (r.Refused? && p !in snapshot) then old(tree) else before, p)
    {
      var after := TreeState();
      var restored, rewrite, discard := Compare(snapshot, after, keep);
      ghost var agent := tree;
      StatusSuffices(before, agent, head, keep);
      assert forall p :: NeedsDiscard(before, agent, head, keep, p) <==> p in discard;
      Rewrite(rewrite, before);
      ghost var rewritten := tree;
      if discard != [] {
        assert discard[0] in discard;
        var ok := Discard(discard);
        if !ok {
          forall p ensures Lookup(tree, p) == Lookup(if keep(p) || p !in snapshot then agent else before, p) {
            assert Named(rewrite, p) <==> p in Changed(before, agent, keep) && p in snapshot;
          }
          return Refused;
        }
      }
      forall p ensures Lookup(tree, p) == Lookup(if keep(p) then agent else before, p) {
        PutBack(before, agent, head, keep, p, rewritten, tree, Named(rewrite, p), p in discard);
      }
      r := Done(restored);
    }
  }
}
